/** The bulk-synchronous consistency controller of server/bsp_model.cpp, for one server. */
module BspModel {
  import opened Basics
  import opened Requests
  import PT = ProgressTracker

  datatype Server = Server(tracker: PT.Tracker, addBuffer: seq<AddReq>, getBuffer: seq<GetReq>,
                           store: Store, replies: seq<Reply>)

  /** None is a failed CHECK, in all three operations. */
  function Clock(s: Server, worker: nat): Option<Server>
    requires worker in s.tracker.progress
  {
    var (tracker, changed) := PT.Advance(s.tracker, worker);
    if tracker.progress[worker] > tracker.minClock + 1 then
      None
    else if changed.None? then
      Some(s.(tracker := tracker))
    else
      var store := PlusAll(s.store, s.addBuffer);
      Some(Server(tracker, [], [], store, s.replies + AnswerAll(store, s.getBuffer)))
  }

  function Add(s: Server, a: AddReq): Option<Server>
    requires a.worker in s.tracker.progress
  {
    if s.tracker.progress[a.worker] == s.tracker.minClock then
      Some(s.(addBuffer := s.addBuffer + [a]))
    else
      None
  }

  function Get(s: Server, req: GetReq): Option<Server>
    requires req.worker in s.tracker.progress
  {
    var progress := s.tracker.progress[req.worker];
    if progress == s.tracker.minClock + 1 then
      Some(s.(getBuffer := s.getBuffer + [req]))
    else if progress == s.tracker.minClock then
      Some(s.(replies := s.replies + [Answer(s.store, req)]))
    else
      None
  }

  // ---------------------------------------------------------------- the controller as an object

  class BspController {
    const tracker: PT.ProgressTracker
    const storage: Storage
    var addBuffer: seq<AddReq>
    var getBuffer: seq<GetReq>
    var replyQueue: seq<Reply>

    ghost function State(): Server
      reads this, tracker, storage
    {
      Server(tracker.State(), addBuffer, getBuffer, storage.content, replyQueue)
    }

    constructor (content: Store)
      ensures fresh(tracker) && fresh(storage)
      ensures State() == Server(PT.Tracker(map[], 0), [], [], content, [])
    {
      tracker := new PT.ProgressTracker();
      storage := new Storage(content);
      addBuffer, getBuffer, replyQueue := [], [], [];
    }

    /** ok is false when the CHECK fails. */
    method HandleClock(worker: nat) returns (ok: bool)
      requires worker in tracker.progresses
      modifies this, tracker, storage
      ensures ok <==> Clock(old(State()), worker).Some?
      ensures ok ==> Clock(old(State()), worker) == Some(State())
    {
      var changed := tracker.AdvanceAndGetChangedMinClock(worker);
      if tracker.progresses[worker] > tracker.minClock + 1 {
        return false;
      }
      if changed.Some? {
        FlushAdds();
        FlushGets();
      }
      return true;
    }

    method FlushAdds()
      modifies storage, this`addBuffer
      ensures storage.content == PlusAll(old(storage.content), old(addBuffer)) && addBuffer == []
    {
      var i := 0;
      while i < |addBuffer|
        modifies storage
        invariant i <= |addBuffer|
        invariant storage.content == PlusAll(old(storage.content), addBuffer[..i])
      {
        assert addBuffer[..i + 1][..i] == addBuffer[..i];
        storage.AddPairs(addBuffer[i].kvs);
        i := i + 1;
      }
      assert addBuffer[..i] == addBuffer;
      addBuffer := [];
    }

    method FlushGets()
      modifies this`replyQueue, this`getBuffer
      ensures replyQueue == old(replyQueue) + AnswerAll(storage.content, old(getBuffer)) && getBuffer == []
    {
      var i := 0;
      while i < |getBuffer|
        modifies this`replyQueue
        invariant i <= |getBuffer|
        invariant replyQueue == old(replyQueue) + AnswerAll(storage.content, getBuffer)[..i]
      {
        var reply := storage.Get(getBuffer[i]);
        replyQueue := replyQueue + [reply];
        i := i + 1;
      }
      assert AnswerAll(storage.content, getBuffer)[..i] == AnswerAll(storage.content, getBuffer);
      getBuffer := [];
    }

    method HandleAdd(a: AddReq) returns (ok: bool)
      requires a.worker in tracker.progresses
      modifies this`addBuffer
      ensures ok <==> Add(old(State()), a).Some?
      ensures ok ==> Add(old(State()), a) == Some(State())
    {
      ok := tracker.progresses[a.worker] == tracker.minClock;
      if ok {
        addBuffer := addBuffer + [a];
      }
    }

    method HandleGet(req: GetReq) returns (ok: bool)
      requires req.worker in tracker.progresses
      modifies this`getBuffer, this`replyQueue
      ensures ok <==> Get(old(State()), req).Some?
      ensures ok ==> Get(old(State()), req) == Some(State())
    {
      var progress := tracker.progresses[req.worker];
      ok := true;
      if progress == tracker.minClock + 1 {
        getBuffer := getBuffer + [req];
      } else if progress == tracker.minClock {
        var reply := storage.Get(req);
        replyQueue := replyQueue + [reply];
      } else {
        ok := false;
      }
    }
  }

  // ---------------------------------------------------------------- one server's history

  /** As for the stale-synchronous model: all Adds and Gets handled, and the number of Adds in each reply. */
  datatype Hist = Hist(srv: Server, adds: seq<AddReq>, gets: seq<GetReq>, seen: seq<nat>)

  ghost predicate Start(h: Hist, tids: seq<nat>, init: Store) {
    h == Hist(Server(PT.Fresh(tids), [], [], init, []), [], [], [])
  }

  /** The label of a request is the clock its worker had reached. */
  ghost predicate Accepts(h: Hist, msg: Msg)
  {
    var p := h.srv.tracker.progress;
    match msg
    case ClockMsg(w) => w in p
    case AddMsg(a) => a.worker in p && a.clock == p[a.worker]
    case GetMsg(g) => g.worker in p && g.clock == p[g.worker]
  }

  /** The server after a message, unless a CHECK fails. */
  function After(s: Server, msg: Msg): Option<Server>
    requires match msg
             case ClockMsg(w) => w in s.tracker.progress
             case AddMsg(a) => a.worker in s.tracker.progress
             case GetMsg(g) => g.worker in s.tracker.progress
  {
    match msg
    case ClockMsg(w) => Clock(s, w)
    case AddMsg(a) => Add(s, a)
    case GetMsg(g) => Get(s, g)
  }

  /** How many of the Adds handled so far the store holds: all but the buffered ones. */
  function Applied(h: Hist): nat
  {
    if |h.srv.addBuffer| <= |h.adds| then |h.adds| - |h.srv.addBuffer| else 0
  }

  /** Handling one message, no CHECK failing. */
  ghost predicate Next(h: Hist, msg: Msg, h': Hist)
  {
    && Accepts(h, msg)
    && After(h.srv, msg) == Some(h'.srv)
    && h'.adds == (if msg.AddMsg? then h.adds + [msg.a] else h.adds)
    && h'.gets == (if msg.GetMsg? then h.gets + [msg.g] else h.gets)
    && |h'.seen| == |h'.srv.replies|
    && |h.seen| <= |h'.seen|
    && (forall k :: 0 <= k < |h.seen| ==> h'.seen[k] == h.seen[k])
    && (forall k :: |h.seen| <= k < |h'.seen| ==> h'.seen[k] == Applied(h'))
  }

  /** The applied Adds are older than the minimum clock, the buffered ones exactly that old. */
  ghost predicate BuffersOk(h: Hist) {
    var n, min := Applied(h), h.srv.tracker.minClock;
    && |h.srv.addBuffer| <= |h.adds|
    && h.srv.addBuffer == h.adds[n..]
    && (forall i :: 0 <= i < n ==> h.adds[i].clock < min)
    && (forall i :: n <= i < |h.adds| ==> h.adds[i].clock == min)
    && (forall g :: g in h.srv.getBuffer ==> g.clock == min + 1)
    && (forall w :: w in h.srv.tracker.progress ==> h.srv.tracker.progress[w] <= min + 1)
  }

  ghost predicate StoreInv(h: Hist, init: Store)
  {
    h.srv.store == PlusAll(init, h.adds[..Applied(h)])
  }

  /** The k-th reply reflects exactly the Adds older than its request: those before seen[k]. */
  ghost predicate Snapshot(h: Hist, init: Store, k: nat)
    requires k < |h.srv.replies| == |h.seen|
  {
    var r, n := h.srv.replies[k], h.seen[k];
    && r.req.clock <= h.srv.tracker.minClock
    && n <= |h.adds|
    && Reflects(r.vals, r.req.keys, init, h.adds[..n])
    && (forall i :: 0 <= i < n ==> h.adds[i].clock < r.req.clock)
    && (forall i :: n <= i < |h.adds| ==> h.adds[i].clock >= r.req.clock)
  }

  /** Every Get is either buffered or has been answered, and once. */
  ghost predicate AnsweredOnce(h: Hist, g: GetReq)
  {
    multiset(h.gets)[g] == multiset(AnsweredReqs(h.srv.replies))[g] + multiset(h.srv.getBuffer)[g]
  }

  /**
   * Once the minimum has reached it, the Gets of a clock have been answered in the order they came; those one
   * ahead are buffered in that order.
   */
  ghost predicate AnsweredInOrder(h: Hist, clock: nat) {
    var min, gets := h.srv.tracker.minClock, AtClock(h.gets, clock);
    && AtClock(AnsweredReqs(h.srv.replies), clock) == (if clock <= min then gets else [])
    && (clock > min ==> gets == if clock == min + 1 then h.srv.getBuffer else [])
  }

  ghost predicate InOrder(h: Hist) {
    forall clock :: AnsweredInOrder(h, clock)
  }

  ghost predicate Inv(h: Hist, init: Store) {
    && PT.MinIsLeast(h.srv.tracker)
    && BuffersOk(h)
    && StoreInv(h, init)
    && |h.srv.replies| == |h.seen|
    && (forall k: nat :: k < |h.seen| ==> Snapshot(h, init, k))
    && (forall g :: AnsweredOnce(h, g))
    && InOrder(h)
  }

  lemma StartInv(h: Hist, tids: seq<nat>, init: Store)
    requires Start(h, tids, init)
    ensures Inv(h, init)
  {
    PT.FreshMin(tids);
  }

  lemma ReplyReflects(init: Store, adds: seq<AddReq>, g: GetReq)
    ensures Reflects(Answer(PlusAll(init, adds), g).vals, g.keys, init, adds)
  {
    forall k ensures Lookup(PlusAll(init, adds), k) == Lookup(init, k) + Total(adds, k) {
      LookupPlusAll(init, adds, k);
    }
  }

  lemma {:induction false} PlusAllConcat(m: Store, a: seq<AddReq>, b: seq<AddReq>)
    ensures PlusAll(PlusAll(m, a), b) == PlusAll(m, a + b)
  {
    if b == [] {
      assert a + b == a;
    } else {
      var b' := b[..|b| - 1];
      PlusAllConcat(m, a, b');
      assert (a + b)[..|a + b| - 1] == a + b';
    }
  }

  lemma GetInOrder(h: Hist, g: GetReq, h': Hist)
    requires InOrder(h) && Next(h, GetMsg(g), h')
    ensures InOrder(h')
  {
    forall clock: nat ensures AnsweredInOrder(h', clock) {
      assert AnsweredInOrder(h, clock);
      GetAnswered(h, g, h', clock);
    }
  }

  lemma GetAnswered(h: Hist, g: GetReq, h': Hist, clock: nat)
    requires Next(h, GetMsg(g), h') && AnsweredInOrder(h, clock)
    ensures AnsweredInOrder(h', clock)
  {
    hide AtClock, AnsweredReqs;
    AnsweredMore(h.srv.replies, h.srv.store, []);
    AtClockConcat(h.gets, [g], clock);
    AtClockConcat(AnsweredReqs(h.srv.replies), [g], clock);
    AtClockOne(g, clock);
  }

  lemma ClockInOrder(h: Hist, w: nat, h': Hist)
    requires InOrder(h) && PT.MinIsLeast(h.srv.tracker) && Next(h, ClockMsg(w), h')
    ensures InOrder(h')
  {
    PT.AdvanceMin(h.srv.tracker, w);
    var changed := PT.Advance(h.srv.tracker, w).1;
    forall clock: nat ensures AnsweredInOrder(h', clock) {
      assert AnsweredInOrder(h, clock);
      if changed.Some? {
        assert AnsweredInOrder(h, changed.value);
        ReleasedInOrder(h, w, h', changed.value, clock);
      }
    }
  }

  lemma ReleasedInOrder(h: Hist, w: nat, h': Hist, min: nat, clock: nat)
    requires Next(h, ClockMsg(w), h') && PT.Advance(h.srv.tracker, w).1 == Some(min)
    requires h'.srv.tracker.minClock == min == h.srv.tracker.minClock + 1
    requires AnsweredInOrder(h, min) && AnsweredInOrder(h, clock)
    ensures AnsweredInOrder(h', clock)
  {
    hide AtClock, AnsweredReqs;
    var due := h.srv.getBuffer;
    AnsweredMore(h.srv.replies, h'.srv.store, due);
    AtClockConcat(AnsweredReqs(h.srv.replies), due, clock);
    AtClockTwice(h.gets, min, clock);
  }

  lemma AddInv(h: Hist, init: Store, a: AddReq, h': Hist)
    requires Inv(h, init) && Next(h, AddMsg(a), h')
    ensures Inv(h', init)
  {
    assert Applied(h') == Applied(h);
    assert h'.adds[..Applied(h)] == h.adds[..Applied(h)];
    forall k: nat | k < |h'.seen| ensures Snapshot(h', init, k) {
      assert Snapshot(h, init, k);
      assert h'.adds[..h.seen[k]] == h.adds[..h.seen[k]];
    }
    forall clock: nat ensures AnsweredInOrder(h', clock) {
      assert AnsweredInOrder(h, clock);
    }
    forall g ensures AnsweredOnce(h', g) {
      assert AnsweredOnce(h, g);
    }
  }

  lemma GetInv(h: Hist, init: Store, g: GetReq, h': Hist)
    requires Inv(h, init) && Next(h, GetMsg(g), h')
    ensures Inv(h', init)
  {
    ReplyReflects(init, h.adds[..Applied(h)], g);
    forall k: nat | k < |h'.seen| ensures Snapshot(h', init, k) {
      if k < |h.seen| {
        assert Snapshot(h, init, k);
      }
    }
    GetOnce(h, g, h');
    GetInOrder(h, g, h');
  }

  lemma GetOnce(h: Hist, g: GetReq, h': Hist)
    requires Next(h, GetMsg(g), h') && forall x :: AnsweredOnce(h, x)
    ensures forall x :: AnsweredOnce(h', x)
  {
    forall x ensures AnsweredOnce(h', x) {
      assert AnsweredOnce(h, x);
      if h.srv.tracker.progress[g.worker] == h.srv.tracker.minClock {
        assert AnsweredReqs(h'.srv.replies) == AnsweredReqs(h.srv.replies) + [g];
      }
    }
  }

  lemma ClockInv(h: Hist, init: Store, w: nat, h': Hist)
    requires Inv(h, init) && Next(h, ClockMsg(w), h')
    ensures Inv(h', init)
  {
    PT.AdvanceMin(h.srv.tracker, w);
    ClockStore(h, init, w, h');
    ClockSnapshots(h, init, w, h');
    ClockOnce(h, w, h');
    ClockInOrder(h, w, h');
  }

  lemma ClockStore(h: Hist, init: Store, w: nat, h': Hist)
    requires BuffersOk(h) && StoreInv(h, init) && Next(h, ClockMsg(w), h')
    ensures StoreInv(h', init)
  {
    var n := Applied(h);
    FlushedStore(init, h.adds, n);
    if PT.Advance(h.srv.tracker, w).1.Some? {
      assert Applied(h') == |h.adds|;
    } else {
      assert Applied(h') == n;
    }
  }

  lemma FlushedStore(init: Store, adds: seq<AddReq>, n: nat)
    requires n <= |adds|
    ensures PlusAll(PlusAll(init, adds[..n]), adds[n..]) == PlusAll(init, adds[..|adds|])
  {
    PlusAllConcat(init, adds[..n], adds[n..]);
    assert adds[..n] + adds[n..] == adds == adds[..|adds|];
  }

  lemma ClockOnce(h: Hist, w: nat, h': Hist)
    requires Next(h, ClockMsg(w), h')
    requires forall x :: AnsweredOnce(h, x)
    ensures forall x :: AnsweredOnce(h', x)
  {
    forall x ensures AnsweredOnce(h', x) {
      assert AnsweredOnce(h, x);
      if PT.UniqueMin(h.srv.tracker, w) {
        assert AnsweredReqs(h'.srv.replies) == AnsweredReqs(h.srv.replies) + h.srv.getBuffer;
      }
    }
  }

  lemma ClockSnapshots(h: Hist, init: Store, w: nat, h': Hist)
    requires Inv(h, init) && Next(h, ClockMsg(w), h') && StoreInv(h', init)
    ensures forall k: nat :: k < |h'.seen| ==> Snapshot(h', init, k)
  {
    PT.AdvanceMin(h.srv.tracker, w);
    forall k: nat | k < |h'.seen| ensures Snapshot(h', init, k) {
      if k < |h.seen| {
        assert Snapshot(h, init, k);
      } else {
        var g := h.srv.getBuffer[k - |h.seen|];
        assert g in h.srv.getBuffer;
        ReplyReflects(init, h'.adds[..Applied(h')], g);
      }
    }
  }

  lemma NextInv(h: Hist, init: Store, msg: Msg, h': Hist)
    requires Inv(h, init) && Next(h, msg, h')
    ensures Inv(h', init)
  {
    match msg
    case ClockMsg(w) => ClockInv(h, init, w, h');
    case AddMsg(a) => AddInv(h, init, a, h');
    case GetMsg(g) => GetInv(h, init, g, h');
  }

  /** Both buffers are empty right after the minimum clock has advanced, and every Get so far has been answered. */
  lemma EmptyAfterAdvance(h: Hist, init: Store, msg: Msg, h': Hist)
    requires Inv(h, init) && Next(h, msg, h')
    requires h'.srv.tracker.minClock != h.srv.tracker.minClock
    ensures h'.srv.addBuffer == [] && h'.srv.getBuffer == []
    ensures multiset(h'.gets) == multiset(AnsweredReqs(h'.srv.replies))
  {
    NextInv(h, init, msg, h');
    forall g ensures multiset(h'.gets)[g] == multiset(AnsweredReqs(h'.srv.replies))[g] {
      assert AnsweredOnce(h', g);
    }
  }
}
