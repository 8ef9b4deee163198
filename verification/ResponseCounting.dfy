/**
 * Waiting for the replies to a request, worker/app_blocker.cpp: any number of clients (an app thread and a
 * model each) and one helper thread, which runs the handlers without holding the lock.
 */
module ResponseCounting {

  // ---------------------------------------------------------------- the sequential code

  datatype Call = Recv(client: nat, msg: int) | Finish(client: nat)

  /** The callback runner; which handlers were called, and in which order, is what calls records. */
  class AppBlocker {
    var tracker: map<nat, (nat, nat)>
    var recvHandles: set<nat>
    var finishHandles: set<nat>
    var calls: seq<Call>

    constructor ()
      ensures tracker == map[] && recvHandles == {} && finishHandles == {} && calls == []
    {
      tracker, recvHandles, finishHandles, calls := map[], {}, {}, [];
    }

    method RegisterRecvHandle(client: nat)
      modifies this`recvHandles
      ensures recvHandles == old(recvHandles) + {client}
    {
      recvHandles := recvHandles + {client};
    }

    method RegisterRecvFinishHandle(client: nat)
      modifies this`finishHandles
      ensures finishHandles == old(finishHandles) + {client}
    {
      finishHandles := finishHandles + {client};
    }

    predicate Registered(client: nat)
      reads this
    {
      client in recvHandles && client in finishHandles
    }

    /** ok is false when the sanity check fails, which ends the process. */
    method NewRequest(client: nat, expected: nat) returns (ok: bool)
      modifies this`tracker
      ensures ok <==> Registered(client)
      ensures tracker == if ok then old(tracker)[client := (expected, 0)] else old(tracker)
    {
      ok := client in recvHandles && client in finishHandles;
      if ok {
        tracker := tracker[client := (expected, 0)];
      }
    }

    /** The condition WaitRequest() waits for. */
    predicate MayReturn(client: nat)
      requires client in tracker
      reads this
    {
      tracker[client].0 == tracker[client].1
    }

    /** The first section of AddResponse(), under the lock. */
    method Inspect(client: nat) returns (recvFinish: bool)
      requires client in tracker
      ensures recvFinish <==> tracker[client].0 == tracker[client].1 + 1
    {
      recvFinish := tracker[client].0 == tracker[client].1 + 1;
    }

    /** The last section, under the lock. */
    method Count(client: nat)
      requires client in tracker
      modifies this`tracker
      ensures tracker == old(tracker)[client := (old(tracker)[client].0, old(tracker)[client].1 + 1)]
    {
      tracker := tracker[client := (tracker[client].0, tracker[client].1 + 1)];
    }

    method AddResponse(client: nat, msg: int)
      requires client in tracker && Registered(client)
      modifies this`tracker, this`calls
      ensures tracker == old(tracker)[client := (old(tracker)[client].0, old(tracker)[client].1 + 1)]
      ensures calls == old(calls) + [Recv(client, msg)] + if MayReturn(client) then [Finish(client)] else []
    {
      var recvFinish := Inspect(client);
      calls := calls + [Recv(client, msg)];
      if recvFinish {
        calls := calls + [Finish(client)];
      }
      Count(client);
    }
  }

  // ---------------------------------------------------------------- all interleavings

  /** Where an app thread is: between requests, sending, before its check in WaitRequest(), or blocked there. */
  datatype AppPhase = Idle | Sending | Checking | Blocked

  /**
   * A client: its tracker entry, where its app thread is, and how many messages of the request were sent
   * and are unanswered.  The runs of the two handlers since NewRequest() are for the specification.
   */
  datatype Client = Client(expected: nat, current: nat, app: AppPhase, sent: nat, unanswered: nat, recvRuns: nat,
                           finishRuns: nat)

  /** Where the helper thread is with a response: its flag known, receive handler run, finish handler run as needed. */
  datatype Helper =
    | Free
    | Inspected(client: nat, fin: bool)
    | Received(client: nat, fin: bool)
    | Done(client: nat, fin: bool)

  datatype State = State(clients: seq<Client>, queue: seq<nat>, helper: Helper)

  datatype Step =
    | NewRequest(c: nat, n: nat)
    | SendOne(c: nat)
    | CallWait(c: nat)
    | Check(c: nat)
    | Arrive(c: nat)
    | Inspect
    | RunRecv
    | RunFinish
    | Count

  function Wake(cl: Client): Client
  {
    if cl.app == Blocked then cl.(app := Checking) else cl
  }

  /** notify_all: every blocked app thread checks its condition again. */
  function WakeAll(cs: seq<Client>): seq<Client>
  {
    seq(|cs|, i requires 0 <= i < |cs| => Wake(cs[i]))
  }

  ghost predicate Next(s: State, step: Step, s': State) {
    match step
    case NewRequest(c, n) =>
      && c < |s.clients| && s.clients[c].app == Idle
      && s' == s.(clients := s.clients[c := Client(n, 0, Sending, 0, 0, 0, 0)])
    case SendOne(c) =>
      && c < |s.clients|
      && var cl := s.clients[c];
         && cl.app == Sending && cl.sent < cl.expected
         && s' == s.(clients := s.clients[c := cl.(sent := cl.sent + 1, unanswered := cl.unanswered + 1)])
    case CallWait(c) =>
      && c < |s.clients|
      && var cl := s.clients[c];
         && cl.app == Sending && cl.sent == cl.expected
         && s' == s.(clients := s.clients[c := cl.(app := Checking)])
    case Check(c) =>
      && c < |s.clients|
      && var cl := s.clients[c];
         && cl.app == Checking
         && s' == s.(clients := s.clients[c := cl.(app := if cl.expected == cl.current then Idle else Blocked)])
    case Arrive(c) =>
      && c < |s.clients|
      && var cl := s.clients[c];
         && cl.unanswered > 0
         && s' == s.(clients := s.clients[c := cl.(unanswered := cl.unanswered - 1)], queue := s.queue + [c])
    case Inspect =>
      && s.helper == Free && s.queue != [] && s.queue[0] < |s.clients|
      && var cl := s.clients[s.queue[0]];
         s' == s.(queue := s.queue[1..], helper := Inspected(s.queue[0], cl.expected == cl.current + 1))
    case RunRecv =>
      && s.helper.Inspected? && s.helper.client < |s.clients|
      && var c := s.helper.client;
         s' == s.(clients := s.clients[c := s.clients[c].(recvRuns := s.clients[c].recvRuns + 1)],
                  helper := Received(c, s.helper.fin))
    case RunFinish =>
      && s.helper.Received? && s.helper.client < |s.clients|
      && var c, d := s.helper.client, if s.helper.fin then 1 else 0;
         s' == s.(clients := s.clients[c := s.clients[c].(finishRuns := s.clients[c].finishRuns + d)],
                  helper := Done(c, s.helper.fin))
    case Count =>
      && s.helper.Done? && s.helper.client < |s.clients|
      && var c := s.helper.client;
         var counted := s.clients[c := s.clients[c].(current := s.clients[c].current + 1)];
         s' == s.(clients := if s.helper.fin then WakeAll(counted) else counted, helper := Free)
  }

  /** No requests yet. */
  ghost predicate Init(s: State) {
    && s.queue == [] && s.helper == Free
    && forall c :: 0 <= c < |s.clients| ==> s.clients[c] == Client(0, 0, Idle, 0, 0, 0, 0)
  }

  ghost predicate IsRun(tr: seq<State>, steps: seq<Step>) {
    && |tr| == |steps| + 1 && Init(tr[0])
    && forall k :: 0 <= k < |steps| ==> Next(tr[k], steps[k], tr[k + 1])
  }

  // ---------------------------------------------------------------- what every run keeps

  /** Whether the helper is busy with a response to c. */
  function AtHelper(h: Helper, c: nat): nat
  {
    if !h.Free? && h.client == c then 1 else 0
  }

  function ReceivedOne(h: Helper, c: nat): nat
  {
    if (h.Received? || h.Done?) && h.client == c then 1 else 0
  }

  function FinishedOne(h: Helper, c: nat): nat
  {
    if h.Done? && h.fin && h.client == c then 1 else 0
  }

  ghost predicate ClientOk(cl: Client, c: nat, queued: nat, h: Helper) {
    && cl.current + AtHelper(h, c) + queued + cl.unanswered == cl.sent <= cl.expected
    && (cl.app != Sending ==> cl.sent == cl.expected)
    && cl.recvRuns == cl.current + ReceivedOne(h, c)
    && cl.finishRuns == (if cl.current == cl.expected && cl.expected > 0 then 1 else 0) + FinishedOne(h, c)
    && (!h.Free? && h.client == c ==> (h.fin <==> cl.expected == cl.current + 1))
    && (cl.app == Idle ==> cl.current == cl.expected)
    && (cl.app == Blocked ==> cl.current < cl.expected)
  }

  ghost predicate PlaceOk(s: State, c: nat)
    requires c < |s.clients|
  {
    ClientOk(s.clients[c], c, multiset(s.queue)[c], s.helper)
  }

  ghost predicate Inv(s: State) {
    && (forall i :: 0 <= i < |s.queue| ==> s.queue[i] < |s.clients|)
    && (!s.helper.Free? ==> s.helper.client < |s.clients|)
    && forall c: nat :: c < |s.clients| ==> PlaceOk(s, c)
  }

  /** The steps of the app threads. */
  lemma AppInv(s: State, step: Step, s': State)
    requires Inv(s) && Next(s, step, s') && (step.NewRequest? || step.SendOne? || step.CallWait? || step.Check?)
    ensures Inv(s')
  {
    forall c: nat | c < |s'.clients| ensures PlaceOk(s', c) {
      assert PlaceOk(s, c);
    }
  }

  lemma ArriveInv(s: State, step: Step, s': State)
    requires Inv(s) && Next(s, step, s') && step.Arrive?
    ensures Inv(s')
  {
    forall c: nat | c < |s'.clients| ensures PlaceOk(s', c) {
      assert PlaceOk(s, c);
    }
  }

  lemma InspectInv(s: State, s': State)
    requires Inv(s) && Next(s, Inspect, s')
    ensures Inv(s')
  {
    assert s.queue == [s.queue[0]] + s.queue[1..];
    forall c: nat | c < |s'.clients| ensures PlaceOk(s', c) {
      assert PlaceOk(s, c);
    }
  }

  /** The helper thread runs a handler. */
  lemma HandlerInv(s: State, step: Step, s': State)
    requires Inv(s) && Next(s, step, s') && (step.RunRecv? || step.RunFinish?)
    ensures Inv(s')
  {
    forall c: nat | c < |s'.clients| ensures PlaceOk(s', c) {
      assert PlaceOk(s, c);
    }
  }

  lemma CountInv(s: State, s': State)
    requires Inv(s) && Next(s, Count, s')
    ensures Inv(s')
  {
    forall c: nat | c < |s'.clients| ensures PlaceOk(s', c) {
      assert PlaceOk(s, c);
    }
  }

  lemma NextInv(s: State, step: Step, s': State)
    requires Inv(s) && Next(s, step, s')
    ensures Inv(s')
  {
    match step
    case NewRequest(_, _) => AppInv(s, step, s');
    case SendOne(_) => AppInv(s, step, s');
    case CallWait(_) => AppInv(s, step, s');
    case Check(_) => AppInv(s, step, s');
    case Arrive(_) => ArriveInv(s, step, s');
    case Inspect => InspectInv(s, s');
    case RunRecv => HandlerInv(s, step, s');
    case RunFinish => HandlerInv(s, step, s');
    case Count => CountInv(s, s');
  }

  lemma {:induction false} RunInv(tr: seq<State>, steps: seq<Step>, n: nat)
    requires IsRun(tr, steps) && n < |tr|
    ensures Inv(tr[n])
  {
    if n == 0 {
    } else {
      RunInv(tr, steps, n - 1);
      NextInv(tr[n - 1], steps[n - 1], tr[n]);
    }
  }

  /**
   * When WaitRequest() returns, the receive handler has run once for every expected reply, and the finish
   * handler has run to its end, exactly once; no reply is anywhere in between.
   */
  lemma WaitReturnsAfterFinish(tr: seq<State>, steps: seq<Step>, k: nat)
    requires IsRun(tr, steps) && k < |steps| && steps[k].Check? && tr[k + 1].clients[steps[k].c].app == Idle
    ensures var cl := tr[k + 1].clients[steps[k].c];
            && cl.recvRuns == cl.expected == cl.current
            && cl.finishRuns == (if cl.expected > 0 then 1 else 0)
            && cl.unanswered == 0 && steps[k].c !in tr[k + 1].queue && AtHelper(tr[k + 1].helper, steps[k].c) == 0
  {
    RunInv(tr, steps, k + 1);
    assert PlaceOk(tr[k + 1], steps[k].c);
    assert multiset(tr[k + 1].queue)[steps[k].c] == 0;
  }

  /**
   * The finish handler runs only after the last of the receive handler's runs, and while the app thread is not
   * past its wait.
   */
  lemma FinishRunsLast(tr: seq<State>, steps: seq<Step>, k: nat)
    requires IsRun(tr, steps) && k < |steps| && steps[k].RunFinish? && !tr[k].helper.Free? && tr[k].helper.fin
    ensures tr[k].helper.client < |tr[k].clients|
    ensures var cl := tr[k].clients[tr[k].helper.client];
            cl.recvRuns == cl.expected > 0 && cl.finishRuns == 0 && cl.app != Idle
  {
    RunInv(tr, steps, k);
    assert Next(tr[k], steps[k], tr[k + 1]);
    assert PlaceOk(tr[k], tr[k].helper.client);
  }

  /** The handlers never run more often than that, at any moment. */
  lemma NeverTooOften(tr: seq<State>, steps: seq<Step>, k: nat, c: nat)
    requires IsRun(tr, steps) && k < |tr| && c < |tr[k].clients|
    ensures var cl := tr[k].clients[c];
            && cl.recvRuns <= cl.expected && cl.finishRuns <= 1
            && (cl.finishRuns == 1 ==> cl.recvRuns == cl.expected)
  {
    RunInv(tr, steps, k);
    assert PlaceOk(tr[k], c);
  }

  /** No wakeup is lost: when all replies have been counted, no app thread is blocked. */
  lemma NobodyBlockedAtRest(tr: seq<State>, steps: seq<Step>, k: nat, c: nat)
    requires IsRun(tr, steps) && k < |tr| && c < |tr[k].clients|
    requires tr[k].helper == Free && tr[k].queue == [] && tr[k].clients[c].unanswered == 0
    ensures tr[k].clients[c].app != Blocked
    ensures tr[k].clients[c].app == Checking ==> tr[k].clients[c].current == tr[k].clients[c].expected
  {
    RunInv(tr, steps, k);
    assert PlaceOk(tr[k], c);
  }
}
