/** The stale-synchronous consistency controller of server/ssp_model.cpp, for one server. */
module SspModel {
  import opened Basics
  import opened Requests
  import PT = ProgressTracker
  import PB = PendingBuffer

  datatype Server = Server(tracker: PT.Tracker, pending: PB.Pending, store: Store, replies: seq<Reply>)

  function Clock(s: Server, worker: nat): Server
    requires worker in s.tracker.progress
  {
    var (tracker, changed) := PT.Advance(s.tracker, worker);
    match changed
    case None => s.(tracker := tracker)
    case Some(min) =>
      var (released, pending) := PB.Pop(s.pending, min);
      s.(tracker := tracker, pending := pending, replies := s.replies + AnswerAll(s.store, released))
  }

  function Add(s: Server, a: AddReq): Server
  {
    s.(store := Plus(s.store, a.kvs))
  }

  function Get(s: Server, staleness: nat, req: GetReq): Server
    requires req.worker in s.tracker.progress
  {
    var progress := s.tracker.progress[req.worker];
    if progress > s.tracker.minClock + staleness then
      s.(pending := PB.Push(s.pending, progress - staleness, req))
    else
      s.(replies := s.replies + [Answer(s.store, req)])
  }

  // ---------------------------------------------------------------- the controller as an object

  class SspController {
    const staleness: nat
    const tracker: PT.ProgressTracker
    const buffer: PB.PendingBuffer
    const storage: Storage
    var replyQueue: seq<Reply>

    ghost function State(): Server
      reads this, tracker, buffer, storage
    {
      Server(tracker.State(), buffer.buffer, storage.content, replyQueue)
    }

    constructor (staleness: nat, content: Store)
      ensures fresh(tracker) && fresh(buffer) && fresh(storage)
      ensures this.staleness == staleness
      ensures State() == Server(PT.Tracker(map[], 0), map[], content, [])
    {
      this.staleness := staleness;
      tracker := new PT.ProgressTracker();
      buffer := new PB.PendingBuffer();
      storage := new Storage(content);
      replyQueue := [];
    }

    /** The part of ResetWorker that concerns the clocks, on empty buffers. */
    method ResetWorker(tids: seq<nat>)
      modifies tracker
      ensures State() == old(State()).(tracker := PT.Fresh(tids))
    {
      tracker.Init(tids);
    }

    method HandleClock(worker: nat)
      requires worker in tracker.progresses
      modifies this, tracker, buffer
      ensures State() == Clock(old(State()), worker)
    {
      var changed := tracker.AdvanceAndGetChangedMinClock(worker);
      if changed.Some? {
        var released := buffer.PopAt(changed.value);
        var i := 0;
        while i < |released|
          modifies this`replyQueue
          invariant i <= |released|
          invariant replyQueue == old(replyQueue) + AnswerAll(storage.content, released)[..i]
        {
          var reply := storage.Get(released[i]);
          replyQueue := replyQueue + [reply];
          i := i + 1;
        }
        assert AnswerAll(storage.content, released)[..i] == AnswerAll(storage.content, released);
      }
    }

    method HandleAdd(a: AddReq)
      modifies storage
      ensures State() == Add(old(State()), a)
    {
      storage.AddPairs(a.kvs);
    }

    method HandleGet(req: GetReq)
      requires req.worker in tracker.progresses
      modifies this, buffer
      ensures State() == Get(old(State()), staleness, req)
    {
      var progress := tracker.progresses[req.worker];
      if progress > tracker.minClock + staleness {
        buffer.PushAt(progress - staleness, req);
      } else {
        var reply := storage.Get(req);
        replyQueue := replyQueue + [reply];
      }
    }
  }

  // ---------------------------------------------------------------- one server's history

  /**
   * A server with what it has been through: the Adds and Gets it has handled, in order, and for each
   * of its replies how many Adds it had handled when it gave it.
   */
  datatype Hist = Hist(srv: Server, adds: seq<AddReq>, gets: seq<GetReq>, seen: seq<nat>)

  ghost predicate Start(h: Hist, tids: seq<nat>, init: Store) {
    h == Hist(Server(PT.Fresh(tids), map[], init, []), [], [], [])
  }

  /** The label of a request is the clock its worker had reached. */
  ghost predicate Accepts(h: Hist, msg: Msg)
  {
    var p := h.srv.tracker.progress;
    match msg
    case ClockMsg(w) => w in p
    case AddMsg(a) => a.worker in p && a.clock == p[a.worker]
    case GetMsg(g) => g.worker in p && g.clock == p[g.worker]
  }

  ghost function Handle(h: Hist, staleness: nat, msg: Msg): Hist
    requires Accepts(h, msg)
  {
    match msg
    case ClockMsg(w) =>
      var srv := Clock(h.srv, w);
      h.(srv := srv, seen := Stamp(h, srv))
    case AddMsg(a) =>
      h.(srv := Add(h.srv, a), adds := h.adds + [a])
    case GetMsg(g) =>
      var srv := Get(h.srv, staleness, g);
      h.(srv := srv, gets := h.gets + [g], seen := Stamp(h, srv))
  }

  /** Handling one message. */
  ghost predicate Next(h: Hist, staleness: nat, msg: Msg, h': Hist)
  {
    Accepts(h, msg) && h' == Handle(h, staleness, msg)
  }

  /** The replies given in this step are given with all Adds so far. */
  ghost function Stamp(h: Hist, srv: Server): seq<nat>
  {
    if |srv.replies| < |h.seen| then h.seen
    else h.seen + seq(|srv.replies| - |h.seen|, (_: nat) => |h.adds|)
  }

  /** A held-back Get is filed under its clock minus the staleness, which the minimum has yet to reach. */
  ghost predicate HeldBack(h: Hist, staleness: nat, key: nat)
    requires key in h.srv.pending
  {
    && h.srv.tracker.minClock < key
    && h.srv.pending[key] != []
    && forall g :: g in h.srv.pending[key] ==>
         && g.clock == key + staleness
         && g.worker in h.srv.tracker.progress && g.clock <= h.srv.tracker.progress[g.worker]
  }

  /**
   * The k-th reply was given once the minimum had reached the request's clock minus the staleness, it
   * reflects the first seen[k] Adds, and the Adds handled since are not older than that.
   */
  ghost predicate Answered(h: Hist, staleness: nat, init: Store, k: nat)
    requires k < |h.srv.replies| == |h.seen|
  {
    var r, n := h.srv.replies[k], h.seen[k];
    && r.req.clock <= h.srv.tracker.minClock + staleness
    && n <= |h.adds|
    && Reflects(r.vals, r.req.keys, init, h.adds[..n])
    && forall i :: n <= i < |h.adds| ==> r.req.clock <= h.adds[i].clock + staleness
  }

  /** How often g is held back. */
  ghost function Waiting(p: PB.Pending, staleness: nat, g: GetReq): nat
  {
    if g.clock >= staleness then multiset(PB.Filed(p, g.clock - staleness))[g] else 0
  }

  /** Every Get is either held back or has been answered, and once. */
  ghost predicate AnsweredOnce(h: Hist, staleness: nat, g: GetReq)
  {
    multiset(h.gets)[g] == multiset(AnsweredReqs(h.srv.replies))[g] + Waiting(h.srv.pending, staleness, g)
  }

  /** Once the minimum has reached their turn, the Gets of a clock have been answered in the order they came. */
  ghost predicate AnsweredInOrder(h: Hist, staleness: nat, clock: nat) {
    AtClock(AnsweredReqs(h.srv.replies), clock) ==
      if clock <= h.srv.tracker.minClock + staleness then AtClock(h.gets, clock) else []
  }

  /** Until then they are held back in that order. */
  ghost predicate FiledInOrder(h: Hist, staleness: nat, key: nat) {
    key > h.srv.tracker.minClock ==> PB.Filed(h.srv.pending, key) == AtClock(h.gets, key + staleness)
  }

  ghost predicate InOrder(h: Hist, staleness: nat) {
    && (forall clock :: AnsweredInOrder(h, staleness, clock))
    && (forall key :: FiledInOrder(h, staleness, key))
  }

  ghost predicate StoreInv(h: Hist, init: Store) {
    forall k :: Lookup(h.srv.store, k) == Lookup(init, k) + Total(h.adds, k)
  }

  ghost predicate Inv(h: Hist, staleness: nat, init: Store) {
    && PT.MinIsLeast(h.srv.tracker)
    && StoreInv(h, init)
    && |h.srv.replies| == |h.seen|
    && (forall key :: key in h.srv.pending ==> HeldBack(h, staleness, key))
    && (forall k: nat :: k < |h.seen| ==> Answered(h, staleness, init, k))
    && (forall g :: AnsweredOnce(h, staleness, g))
    && InOrder(h, staleness)
  }

  lemma StartInv(h: Hist, staleness: nat, tids: seq<nat>, init: Store)
    requires Start(h, tids, init)
    ensures Inv(h, staleness, init)
  {
    PT.FreshMin(tids);
  }

  /** What the store holds is what a reply given now reflects. */
  lemma ReplyReflects(h: Hist, init: Store, g: GetReq)
    requires StoreInv(h, init)
    ensures Reflects(Answer(h.srv.store, g).vals, g.keys, init, h.adds)
  {
  }

  lemma GetInOrder(h: Hist, staleness: nat, g: GetReq, h': Hist)
    requires InOrder(h, staleness) && Next(h, staleness, GetMsg(g), h')
    ensures InOrder(h', staleness)
  {
    forall clock: nat ensures AnsweredInOrder(h', staleness, clock) {
      assert AnsweredInOrder(h, staleness, clock);
      GetAnswered(h, staleness, g, h', clock);
    }
    forall key: nat ensures FiledInOrder(h', staleness, key) {
      assert FiledInOrder(h, staleness, key);
      GetFiled(h, staleness, g, h', key);
    }
  }

  lemma GetAnswered(h: Hist, staleness: nat, g: GetReq, h': Hist, clock: nat)
    requires Next(h, staleness, GetMsg(g), h') && AnsweredInOrder(h, staleness, clock)
    ensures AnsweredInOrder(h', staleness, clock)
  {
    hide AtClock, AnsweredReqs;
    AnsweredMore(h.srv.replies, h.srv.store, []);
    AtClockConcat(h.gets, [g], clock);
    AtClockConcat(AnsweredReqs(h.srv.replies), [g], clock);
    AtClockOne(g, clock);
  }

  lemma GetFiled(h: Hist, staleness: nat, g: GetReq, h': Hist, key: nat)
    requires Next(h, staleness, GetMsg(g), h') && FiledInOrder(h, staleness, key)
    ensures FiledInOrder(h', staleness, key)
  {
    hide AtClock;
    AtClockConcat(h.gets, [g], key + staleness);
    AtClockOne(g, key + staleness);
  }

  lemma ClockInOrder(h: Hist, staleness: nat, w: nat, h': Hist)
    requires InOrder(h, staleness) && PT.MinIsLeast(h.srv.tracker) && Next(h, staleness, ClockMsg(w), h')
    ensures InOrder(h', staleness)
  {
    PT.AdvanceMin(h.srv.tracker, w);
    var changed := PT.Advance(h.srv.tracker, w).1;
    forall key: nat ensures FiledInOrder(h', staleness, key) {
      assert FiledInOrder(h, staleness, key);
    }
    forall clock: nat ensures AnsweredInOrder(h', staleness, clock) {
      assert AnsweredInOrder(h, staleness, clock);
      if changed.Some? {
        ReleasedInOrder(h, staleness, w, h', changed.value, clock);
      }
    }
  }

  lemma ReleasedInOrder(h: Hist, staleness: nat, w: nat, h': Hist, min: nat, clock: nat)
    requires Next(h, staleness, ClockMsg(w), h') && PT.Advance(h.srv.tracker, w).1 == Some(min)
    requires h'.srv.tracker.minClock == min == h.srv.tracker.minClock + 1
    requires FiledInOrder(h, staleness, min) && AnsweredInOrder(h, staleness, clock)
    ensures AnsweredInOrder(h', staleness, clock)
  {
    hide AtClock, AnsweredReqs;
    var due := AtClock(h.gets, min + staleness);
    assert h'.srv.replies == h.srv.replies + AnswerAll(h.srv.store, due);
    AnsweredMore(h.srv.replies, h.srv.store, due);
    AtClockConcat(AnsweredReqs(h.srv.replies), due, clock);
    AtClockTwice(h.gets, min + staleness, clock);
  }

  lemma AddInv(h: Hist, staleness: nat, init: Store, a: AddReq, h': Hist)
    requires Inv(h, staleness, init) && Next(h, staleness, AddMsg(a), h')
    ensures Inv(h', staleness, init)
  {
    forall k ensures Lookup(h'.srv.store, k) == Lookup(init, k) + Total(h'.adds, k) {
      LookupPlus(h.srv.store, a.kvs, k);
      TotalSnoc(h.adds, a, k);
    }
    forall key | key in h'.srv.pending ensures HeldBack(h', staleness, key) {
      assert HeldBack(h, staleness, key);
    }
    forall k: nat | k < |h'.seen| ensures Answered(h', staleness, init, k) {
      assert Answered(h, staleness, init, k);
      assert h'.adds[..h.seen[k]] == h.adds[..h.seen[k]];
    }
    forall clock: nat ensures AnsweredInOrder(h', staleness, clock) {
      assert AnsweredInOrder(h, staleness, clock);
    }
    forall key: nat ensures FiledInOrder(h', staleness, key) {
      assert FiledInOrder(h, staleness, key);
    }
    forall g ensures AnsweredOnce(h', staleness, g) {
      assert AnsweredOnce(h, staleness, g);
    }
  }

  lemma GetInv(h: Hist, staleness: nat, init: Store, g: GetReq, h': Hist)
    requires Inv(h, staleness, init) && Next(h, staleness, GetMsg(g), h')
    ensures Inv(h', staleness, init)
  {
    var p := h.srv.tracker.progress[g.worker];
    var immediate := p <= h.srv.tracker.minClock + staleness;
    ReplyReflects(h, init, g);
    forall key | key in h'.srv.pending ensures HeldBack(h', staleness, key) {
      if key in h.srv.pending {
        assert HeldBack(h, staleness, key);
      }
    }
    assert immediate ==> h'.seen == h.seen + [|h.adds|];
    assert !immediate ==> h'.seen == h.seen;
    assert h.adds[..|h.adds|] == h.adds;
    forall k: nat | k < |h'.seen| ensures Answered(h', staleness, init, k) {
      if k < |h.seen| {
        assert Answered(h, staleness, init, k);
      }
    }
    GetOnce(h, staleness, g, h');
    GetInOrder(h, staleness, g, h');
  }

  lemma GetOnce(h: Hist, staleness: nat, g: GetReq, h': Hist)
    requires Next(h, staleness, GetMsg(g), h')
    requires forall x :: AnsweredOnce(h, staleness, x)
    ensures forall x :: AnsweredOnce(h', staleness, x)
  {
    forall x ensures AnsweredOnce(h', staleness, x) {
      assert AnsweredOnce(h, staleness, x);
      if h.srv.tracker.progress[g.worker] <= h.srv.tracker.minClock + staleness {
        assert AnsweredReqs(h'.srv.replies) == AnsweredReqs(h.srv.replies) + [g];
      }
    }
  }

  lemma ClockInv(h: Hist, staleness: nat, init: Store, w: nat, h': Hist)
    requires Inv(h, staleness, init) && Next(h, staleness, ClockMsg(w), h')
    ensures Inv(h', staleness, init)
  {
    PT.AdvanceMin(h.srv.tracker, w);
    var (tracker, changed) := PT.Advance(h.srv.tracker, w);
    forall key | key in h'.srv.pending ensures HeldBack(h', staleness, key) {
      assert HeldBack(h, staleness, key);
    }
    ClockOnce(h, staleness, w, h');
    ClockInOrder(h, staleness, w, h');
    ClockAnswers(h, staleness, init, w, h');
  }

  /** The Gets a Clock releases have reached their turn, and are answered from the store as it is. */
  lemma ClockAnswers(h: Hist, staleness: nat, init: Store, w: nat, h': Hist)
    requires Inv(h, staleness, init) && Next(h, staleness, ClockMsg(w), h')
    ensures |h'.srv.replies| == |h'.seen|
    ensures forall k: nat :: k < |h'.seen| ==> Answered(h', staleness, init, k)
  {
    PT.AdvanceMin(h.srv.tracker, w);
    var (tracker, changed) := PT.Advance(h.srv.tracker, w);
    assert h.adds[..|h.adds|] == h.adds;
    if changed.Some? && changed.value in h.srv.pending {
      assert HeldBack(h, staleness, changed.value);
    }
    forall k: nat | k < |h'.seen| ensures Answered(h', staleness, init, k) {
      if k < |h.seen| {
        assert Answered(h, staleness, init, k);
      } else {
        var released := PB.Filed(h.srv.pending, changed.value);
        var g := released[k - |h.seen|];
        assert g in released;
        assert h'.srv.replies[k] == Answer(h.srv.store, g);
        ReplyReflects(h, init, g);
      }
    }
  }

  lemma ClockOnce(h: Hist, staleness: nat, w: nat, h': Hist)
    requires Next(h, staleness, ClockMsg(w), h')
    requires forall key :: key in h.srv.pending ==> HeldBack(h, staleness, key)
    requires forall x :: AnsweredOnce(h, staleness, x)
    ensures forall x :: AnsweredOnce(h', staleness, x)
  {
    forall x ensures AnsweredOnce(h', staleness, x) {
      assert AnsweredOnce(h, staleness, x);
      ClockOnceFor(h, staleness, w, h', x);
    }
  }

  lemma ClockOnceFor(h: Hist, staleness: nat, w: nat, h': Hist, g: GetReq)
    requires Next(h, staleness, ClockMsg(w), h') && AnsweredOnce(h, staleness, g)
    requires forall key :: key in h.srv.pending ==> HeldBack(h, staleness, key)
    ensures AnsweredOnce(h', staleness, g)
  {
    var (tracker, changed) := PT.Advance(h.srv.tracker, w);
    if changed.Some? {
      var released := PB.Filed(h.srv.pending, changed.value);
      assert AnsweredReqs(h'.srv.replies) == AnsweredReqs(h.srv.replies) + released;
      if changed.value in h.srv.pending && g in released {
        assert HeldBack(h, staleness, changed.value);
      }
    }
  }

  lemma NextInv(h: Hist, staleness: nat, init: Store, msg: Msg, h': Hist)
    requires Inv(h, staleness, init) && Next(h, staleness, msg, h')
    ensures Inv(h', staleness, init)
  {
    match msg
    case ClockMsg(w) => ClockInv(h, staleness, init, w, h');
    case AddMsg(a) => AddInv(h, staleness, init, a, h');
    case GetMsg(g) => GetInv(h, staleness, init, g, h');
  }

  // ---------------------------------------------------------------- what it means

  /**
   * At every moment a Get has been answered exactly once if the minimum has reached its clock minus the
   * staleness, and not at all otherwise: so it is answered at the first moment that is the case.
   */
  lemma AnsweredAtTheFirstMoment(h: Hist, staleness: nat, init: Store, g: GetReq)
    requires Inv(h, staleness, init)
    ensures multiset(AnsweredReqs(h.srv.replies))[g] ==
              if g.clock <= h.srv.tracker.minClock + staleness then multiset(h.gets)[g] else 0
  {
    assert AnsweredOnce(h, staleness, g);
    WaitingNotDue(h, staleness, g);
    AnsweredIsDue(h, staleness, init, g);
  }

  lemma WaitingNotDue(h: Hist, staleness: nat, g: GetReq)
    requires forall key :: key in h.srv.pending ==> HeldBack(h, staleness, key)
    ensures Waiting(h.srv.pending, staleness, g) > 0 ==> g.clock > h.srv.tracker.minClock + staleness
  {
    if g.clock >= staleness && g.clock - staleness in h.srv.pending {
      assert HeldBack(h, staleness, g.clock - staleness);
    }
  }

  lemma AnsweredIsDue(h: Hist, staleness: nat, init: Store, g: GetReq)
    requires Inv(h, staleness, init)
    ensures multiset(AnsweredReqs(h.srv.replies))[g] > 0 ==> g.clock <= h.srv.tracker.minClock + staleness
  {
    if g in multiset(AnsweredReqs(h.srv.replies)) {
      assert g in AnsweredReqs(h.srv.replies);
      var k: nat :| k < |h.srv.replies| && AnsweredReqs(h.srv.replies)[k] == g;
      assert Answered(h, staleness, init, k);
    }
  }

  /** The slowest worker is never held back. */
  lemma SlowestNotBlocked(h: Hist, staleness: nat, init: Store, g: GetReq, h': Hist)
    requires Inv(h, staleness, init) && Next(h, staleness, GetMsg(g), h')
    requires forall w :: w in h.srv.tracker.progress ==> g.clock <= h.srv.tracker.progress[w]
    ensures h'.srv.replies == h.srv.replies + [Answer(h.srv.store, g)]
  {
    assert h.srv.tracker.progress[g.worker] <= h.srv.tracker.minClock;
  }

  /** When all clocks are equal, nothing is held back. */
  lemma NothingPendingWhenEqual(h: Hist, staleness: nat, init: Store)
    requires Inv(h, staleness, init)
    requires forall v, w :: v in h.srv.tracker.progress && w in h.srv.tracker.progress ==>
               h.srv.tracker.progress[v] == h.srv.tracker.progress[w]
    ensures h.srv.pending == map[]
  {
    if h.srv.pending != map[] {
      var key :| key in h.srv.pending;
      HeldBackMeansLead(h, staleness, key);
    }
  }

  /** Behind every Get held back there is a worker ahead of the slowest. */
  lemma HeldBackMeansLead(h: Hist, staleness: nat, key: nat)
    requires key in h.srv.pending && HeldBack(h, staleness, key) && PT.MinIsLeast(h.srv.tracker)
    ensures exists v, w :: v in h.srv.tracker.progress && w in h.srv.tracker.progress
                           && h.srv.tracker.progress[v] < h.srv.tracker.progress[w]
  {
    var g := h.srv.pending[key][0];
    assert g in h.srv.pending[key];
    var least :| least in h.srv.tracker.progress && h.srv.tracker.progress[least] == h.srv.tracker.minClock;
    assert h.srv.tracker.progress[least] < h.srv.tracker.progress[g.worker];
  }
}
