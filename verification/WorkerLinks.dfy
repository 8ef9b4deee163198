/**
 * Workers and their links to the servers.  A worker slices each Add and Get over the servers that
 * own its keys and sends each of them its slice, sends every Clock to every server, and blocks in
 * Get until it has been answered.  A link is first-in-first-out: it is what the worker has sent, and
 * how far the server has read.
 */
module WorkerLinks {
  import opened Basics
  import opened Requests

  /**
   * asked: the Get the worker is blocked in.  gotSince: since its last Clock it has completed a non-empty
   * Get; gotEverywhere: one with keys on every server.
   */
  datatype Worker = Worker(clock: nat, no: nat, asked: Option<GetReq>, gotSince: bool, gotEverywhere: bool)

  /**
   * sent[w][j] is what worker w has sent to server j, of which the server has handled the first read[w][j].
   * issued are the Adds of all workers as they issued them, unsliced; it is there to state the theorems.
   */
  datatype Net = Net(worker: seq<Worker>, sent: seq<seq<seq<Msg>>>, read: seq<seq<nat>>, issued: seq<AddReq>)

  datatype Step =
    | IssueAdd(w: nat, kvs: seq<(Key, int)>)
    | IssueGet(w: nat, keys: seq<Key>)
    | IssueClock(w: nat)
    | FinishGet(w: nat, vals: seq<int>)
    | Take(w: nat, j: nat)

  /** The cluster: owner(k) is the server that owns key k. */
  datatype Config = Config(workers: nat, servers: nat, owner: Key -> nat)

  ghost predicate WellFormed(c: Config, net: Net) {
    && |net.worker| == |net.sent| == |net.read| == c.workers
    && (forall w :: 0 <= w < c.workers ==> |net.sent[w]| == |net.read[w]| == c.servers)
    && (forall w, j :: 0 <= w < c.workers && 0 <= j < c.servers ==> net.read[w][j] <= |net.sent[w][j]|)
  }

  ghost predicate Init(c: Config, net: Net) {
    && WellFormed(c, net)
    && (forall w :: 0 <= w < c.workers ==> net.worker[w] == Worker(0, 0, None, false, false))
    && (forall w, j :: 0 <= w < c.workers && 0 <= j < c.servers ==> net.sent[w][j] == [])
    && net.issued == []
  }

  /** The workers' ids, as ResetWorker sends them to each server. */
  function Ids(c: Config): seq<nat>
  {
    seq(c.workers, (i: nat) => i)
  }

  /** The pairs whose key server j owns. */
  function SlicePairs(c: Config, kvs: seq<(Key, int)>, j: nat): seq<(Key, int)>
  {
    if kvs == [] then []
    else SlicePairs(c, kvs[..|kvs| - 1], j) + if c.owner(kvs[|kvs| - 1].0) == j then [kvs[|kvs| - 1]] else []
  }

  function SliceKeys(c: Config, keys: seq<Key>, j: nat): seq<Key>
  {
    if keys == [] then []
    else SliceKeys(c, keys[..|keys| - 1], j) + if c.owner(keys[|keys| - 1]) == j then [keys[|keys| - 1]] else []
  }

  /** What is appended to the link to server j: nothing when the slice is empty. */
  function AddSlice(c: Config, w: nat, who: Worker, kvs: seq<(Key, int)>, j: nat): seq<Msg>
  {
    var slice := SlicePairs(c, kvs, j);
    if slice == [] then [] else [AddMsg(AddReq(w, who.clock, who.no, slice))]
  }

  function GetSlice(c: Config, g: GetReq, j: nat): seq<Msg>
  {
    var slice := SliceKeys(c, g.keys, j);
    if slice == [] then [] else [GetMsg(g.(keys := slice))]
  }

  /** One worker's links, with more appended to each. */
  ghost predicate Appended(c: Config, links: seq<seq<Msg>>, more: nat -> seq<Msg>, links': seq<seq<Msg>>) {
    && |links'| == |links| == c.servers
    && forall j: nat :: j < c.servers ==> links'[j] == links[j] + more(j)
  }

  ghost predicate Next(c: Config, net: Net, step: Step, net': Net)
    requires WellFormed(c, net)
  {
    match step
    case IssueAdd(w, kvs) =>
      && w < c.workers && net.worker[w].asked.None?
      && net'.worker == net.worker[w := net.worker[w].(no := net.worker[w].no + 1)]
      && net'.read == net.read
      && net'.issued == net.issued + [AddReq(w, net.worker[w].clock, net.worker[w].no, kvs)]
      && SentMore(c, net, w, (j: nat) => AddSlice(c, w, net.worker[w], kvs, j), net')
    case IssueGet(w, keys) =>
      && w < c.workers && net.worker[w].asked.None?
      && var g := GetReq(w, net.worker[w].clock, net.worker[w].no, keys);
         && net'.worker == net.worker[w := net.worker[w].(no := net.worker[w].no + 1, asked := Some(g))]
         && net'.read == net.read && net'.issued == net.issued
         && SentMore(c, net, w, (j: nat) => GetSlice(c, g, j), net')
    case IssueClock(w) =>
      && w < c.workers && net.worker[w].asked.None?
      && net'.worker ==
           net.worker[w := net.worker[w].(clock := net.worker[w].clock + 1, gotSince := false, gotEverywhere := false)]
      && net'.read == net.read && net'.issued == net.issued
      && SentMore(c, net, w, (j: nat) => [ClockMsg(w)], net')
    case FinishGet(w, _) =>
      && w < c.workers && net.worker[w].asked.Some?
      && net' == net.(worker := net.worker[w :=
           net.worker[w].(asked := None,
                          gotSince := net.worker[w].gotSince || Reaches(c, net.worker[w].asked.value),
                          gotEverywhere := net.worker[w].gotEverywhere || ReachesAll(c, net.worker[w].asked.value))])
    case Take(w, j) =>
      && w < c.workers && j < c.servers && net.read[w][j] < |net.sent[w][j]|
      && net' == net.(read := net.read[w := net.read[w][j := net.read[w][j] + 1]])
  }

  ghost predicate SentMore(c: Config, net: Net, w: nat, more: nat -> seq<Msg>, net': Net)
    requires WellFormed(c, net) && w < c.workers
  {
    && |net'.sent| == |net.sent|
    && (forall v :: 0 <= v < |net.sent| && v != w ==> net'.sent[v] == net.sent[v])
    && Appended(c, net.sent[w], more, net'.sent[w])
  }

  /** A Get is non-empty when some server owns one of its keys. */
  ghost predicate Reaches(c: Config, g: GetReq) {
    exists j :: 0 <= j < c.servers && SliceKeys(c, g.keys, j) != []
  }

  ghost predicate ReachesAll(c: Config, g: GetReq) {
    forall j :: 0 <= j < c.servers ==> SliceKeys(c, g.keys, j) != []
  }

  /** A server with these replies has answered its slice of g, if it has one. */
  ghost predicate SliceAnswered(c: Config, replies: seq<Reply>, g: GetReq, j: nat) {
    SliceKeys(c, g.keys, j) == []
      || exists k: nat :: k < |replies| && replies[k].req == g.(keys := SliceKeys(c, g.keys, j))
  }

  /** The server answered req with val for this key. */
  ghost predicate RepliedWith(replies: seq<Reply>, req: GetReq, key: Key, val: int) {
    exists k: nat, p: nat :: k < |replies| && replies[k].req == req && p < |req.keys| == |replies[k].vals|
                             && req.keys[p] == key && replies[k].vals[p] == val
  }

  /**
   * What a Get returns: every server has answered its slice, and each value is the one its key's server
   * has replied with.  Of keys no server owns nothing is said.
   */
  ghost predicate Gathered(c: Config, replies: nat -> seq<Reply>, g: GetReq, vals: seq<int>) {
    && |vals| == |g.keys|
    && (forall j: nat :: j < c.servers ==> SliceAnswered(c, replies(j), g, j))
    && (forall i: nat :: i < |g.keys| && c.owner(g.keys[i]) < c.servers ==>
          var j := c.owner(g.keys[i]);
          RepliedWith(replies(j), g.(keys := SliceKeys(c, g.keys, j)), g.keys[i], vals[i]))
  }

  /** The next message server j handles from worker w. */
  function Head(c: Config, net: Net, w: nat, j: nat): Msg
    requires WellFormed(c, net) && w < c.workers && j < c.servers && net.read[w][j] < |net.sent[w][j]|
  {
    net.sent[w][j][net.read[w][j]]
  }

  // ---------------------------------------------------------------- labels

  /** How many Clocks a list of messages contains. */
  function Clocks(l: seq<Msg>): nat
  {
    if l == [] then 0 else Clocks(l[..|l| - 1]) + if l[|l| - 1].ClockMsg? then 1 else 0
  }

  lemma ClocksSnoc(l: seq<Msg>, m: Msg)
    ensures Clocks(l + [m]) == Clocks(l) + if m.ClockMsg? then 1 else 0
  {
    assert (l + [m])[..|l|] == l;
  }

  lemma {:induction false} ClocksMonotone(l: seq<Msg>, k: nat)
    requires k <= |l|
    ensures Clocks(l[..k]) <= Clocks(l)
  {
    if k < |l| {
      ClocksMonotone(l[..|l| - 1], k);
      assert l[..|l| - 1][..k] == l[..k];
    } else {
      assert l[..k] == l;
    }
  }

  function SerialOf(m: Msg): nat
    requires !m.ClockMsg?
  {
    if m.AddMsg? then m.a.no else m.g.no
  }

  /** The k-th message on a link is labelled with the Clocks before it and a serial number no later one repeats. */
  ghost predicate LabelOk(l: seq<Msg>, w: nat, no: nat, k: nat)
    requires k < |l|
  {
    && (match l[k]
        case AddMsg(a) => a.worker == w && a.clock == Clocks(l[..k]) && a.no < no
        case GetMsg(g) => g.worker == w && g.clock == Clocks(l[..k]) && g.no < no
        case ClockMsg(v) => v == w)
  }

  ghost predicate Ordered(l: seq<Msg>) {
    forall i: nat, k: nat :: i < k < |l| && !l[i].ClockMsg? && !l[k].ClockMsg? ==> SerialOf(l[i]) < SerialOf(l[k])
  }

  lemma {:induction false} OnceInOrder(l: seq<Msg>, m: Msg)
    requires Ordered(l) && !m.ClockMsg?
    ensures multiset(l)[m] <= 1
  {
    if l == [] {
    } else {
      var front, last := l[..|l| - 1], l[|l| - 1];
      OnceInOrder(front, m);
      assert l == front + [last];
      if last == m {
        assert m !in front;
      }
    }
  }

  ghost predicate LinkOk(l: seq<Msg>, w: nat, who: Worker) {
    && (forall k: nat :: k < |l| ==> LabelOk(l, w, who.no, k))
    && Ordered(l)
    && Clocks(l) == who.clock
  }

  ghost predicate WorkerOk(net: Net, w: nat)
    requires w < |net.worker|
  {
    var who := net.worker[w];
    who.asked.Some? ==> who.asked.value.worker == w && who.asked.value.clock == who.clock && who.asked.value.no < who.no
  }

  /** The slice for server j of the Get a worker is blocked in has gone onto the link, unless it is empty. */
  ghost predicate AskedSent(c: Config, net: Net, w: nat, j: nat)
    requires WellFormed(c, net) && w < c.workers && j < c.servers
  {
    var who := net.worker[w];
    who.asked.Some? ==>
      var slice := SliceKeys(c, who.asked.value.keys, j);
      slice == [] || GetMsg(who.asked.value.(keys := slice)) in net.sent[w][j]
  }

  ghost predicate Inv(c: Config, net: Net) {
    && WellFormed(c, net)
    && (forall w: nat, j: nat :: w < c.workers && j < c.servers ==> LinkOk(net.sent[w][j], w, net.worker[w]))
    && (forall w: nat, j: nat :: w < c.workers && j < c.servers ==> AskedSent(c, net, w, j))
    && (forall w: nat :: w < c.workers ==> WorkerOk(net, w))
  }

  lemma InitInv(c: Config, net: Net)
    requires Init(c, net)
    ensures Inv(c, net)
  {
  }

  /** Appending one well-labelled message keeps a link in order. */
  lemma AppendOk(l: seq<Msg>, w: nat, who: Worker, m: Msg, who': Worker)
    requires LinkOk(l, w, who) && who'.no >= who.no
    requires match m
             case AddMsg(a) => a.worker == w && a.clock == who.clock == who'.clock && who.no <= a.no < who'.no
             case GetMsg(g) => g.worker == w && g.clock == who.clock == who'.clock && who.no <= g.no < who'.no
             case ClockMsg(v) => v == w && who'.clock == who.clock + 1
    ensures LinkOk(l + [m], w, who')
  {
    var l' := l + [m];
    ClocksSnoc(l, m);
    forall k: nat | k < |l'| ensures LabelOk(l', w, who'.no, k) {
      if k < |l| {
        assert LabelOk(l, w, who.no, k);
        assert l'[..k] == l[..k];
      } else {
        assert l'[..k] == l;
      }
    }
    forall i: nat, k: nat | i < k < |l'| && !l'[i].ClockMsg? && !l'[k].ClockMsg?
      ensures SerialOf(l'[i]) < SerialOf(l'[k])
    {
      assert LabelOk(l, w, who.no, i);
    }
  }

  lemma UnchangedOk(l: seq<Msg>, w: nat, who: Worker, who': Worker)
    requires LinkOk(l, w, who) && who'.no >= who.no && who'.clock == who.clock
    ensures LinkOk(l + [], w, who')
  {
    assert l + [] == l;
    forall k: nat | k < |l| ensures LabelOk(l, w, who'.no, k) {
      assert LabelOk(l, w, who.no, k);
    }
  }

  lemma AskedStaysSent(c: Config, net: Net, step: Step, net': Net, w: nat, j: nat)
    requires WellFormed(c, net) && WellFormed(c, net') && Next(c, net, step, net') && w < c.workers && j < c.servers
    requires AskedSent(c, net, w, j)
    ensures AskedSent(c, net', w, j)
  {
  }

  lemma NextInv(c: Config, net: Net, step: Step, net': Net)
    requires Inv(c, net) && Next(c, net, step, net')
    ensures Inv(c, net')
  {
    forall w: nat, j: nat | w < c.workers && j < c.servers ensures AskedSent(c, net', w, j) {
      AskedStaysSent(c, net, step, net', w, j);
    }
    forall w: nat | w < c.workers ensures WorkerOk(net', w) {
      assert WorkerOk(net, w);
    }
    if step.Take? || step.FinishGet? {
      forall w: nat, j: nat | w < c.workers && j < c.servers ensures LinkOk(net'.sent[w][j], w, net'.worker[w]) {
        assert LinkOk(net.sent[w][j], w, net.worker[w]);
      }
    } else {
      forall w: nat, j: nat | w < c.workers && j < c.servers ensures LinkOk(net'.sent[w][j], w, net'.worker[w]) {
        assert LinkOk(net.sent[w][j], w, net.worker[w]);
        if w == step.w {
          IssueOk(c, net, step, net', j);
        }
      }
    }
  }

  lemma IssueOk(c: Config, net: Net, step: Step, net': Net, j: nat)
    requires WellFormed(c, net) && Next(c, net, step, net') && !step.Take? && !step.FinishGet?
    requires j < c.servers && LinkOk(net.sent[step.w][j], step.w, net.worker[step.w])
    ensures LinkOk(net'.sent[step.w][j], step.w, net'.worker[step.w])
  {
    var w := step.w;
    var l, who, who' := net.sent[w][j], net.worker[w], net'.worker[w];
    match step
    case IssueAdd(_, kvs) =>
      var more := AddSlice(c, w, who, kvs, j);
      if more == [] {
        UnchangedOk(l, w, who, who');
      } else {
        AppendOk(l, w, who, more[0], who');
      }
    case IssueGet(_, keys) =>
      var more := GetSlice(c, who'.asked.value, j);
      if more == [] {
        UnchangedOk(l, w, who, who');
      } else {
        AppendOk(l, w, who, more[0], who');
      }
    case IssueClock(_) =>
      AppendOk(l, w, who, ClockMsg(w), who');
  }

  ghost predicate IsRun(c: Config, nets: seq<Net>, steps: seq<Step>) {
    && |nets| == |steps| + 1
    && (forall k :: 0 <= k < |nets| ==> WellFormed(c, nets[k]))
    && (forall k :: 0 <= k < |steps| ==> Next(c, nets[k], steps[k], nets[k + 1]))
  }

  // ---------------------------------------------------------------- what a server has handled

  /** The messages of worker w that server j has handled. */
  function Handled(c: Config, net: Net, w: nat, j: nat): seq<Msg>
    requires WellFormed(c, net) && w < c.workers && j < c.servers
  {
    net.sent[w][j][..net.read[w][j]]
  }

  /** a is in adds as often as server j has handled it. */
  ghost predicate HandledAsOften(c: Config, net: Net, j: nat, adds: seq<AddReq>, a: AddReq)
    requires WellFormed(c, net) && j < c.servers
  {
    multiset(adds)[a] == if a.worker < c.workers then multiset(Handled(c, net, a.worker, j))[AddMsg(a)] else 0
  }

  /** adds are, with multiplicities, the Adds server j has handled. */
  ghost predicate AddsHandled(c: Config, net: Net, j: nat, adds: seq<AddReq>)
    requires WellFormed(c, net) && j < c.servers
  {
    forall a :: HandledAsOften(c, net, j, adds, a)
  }

  ghost predicate GetHandledAsOften(c: Config, net: Net, j: nat, gets: seq<GetReq>, g: GetReq)
    requires WellFormed(c, net) && j < c.servers
  {
    multiset(gets)[g] == if g.worker < c.workers then multiset(Handled(c, net, g.worker, j))[GetMsg(g)] else 0
  }

  /** gets are, with multiplicities, the Gets server j has handled. */
  ghost predicate GetsHandled(c: Config, net: Net, j: nat, gets: seq<GetReq>)
    requires WellFormed(c, net) && j < c.servers
  {
    forall g :: GetHandledAsOften(c, net, j, gets, g)
  }

  /** progress are the Clocks server j has handled from each worker. */
  ghost predicate ClocksHandled(c: Config, net: Net, j: nat, progress: map<nat, nat>)
    requires WellFormed(c, net) && j < c.servers
  {
    && (forall w: nat :: w in progress <==> w < c.workers)
    && (forall w: nat :: w < c.workers ==> progress[w] == Clocks(Handled(c, net, w, j)))
  }

  /** At the start nothing has been handled. */
  lemma NothingHandled(c: Config, net: Net, j: nat, progress: map<nat, nat>)
    requires Init(c, net) && j < c.servers
    requires forall w: nat :: w in progress <==> w in Ids(c)
    requires forall w: nat :: w in progress ==> progress[w] == 0
    ensures AddsHandled(c, net, j, []) && GetsHandled(c, net, j, []) && ClocksHandled(c, net, j, progress)
  {
    forall w: nat ensures w in progress <==> w < c.workers {
      if w < c.workers {
        assert Ids(c)[w] == w;
      }
    }
    forall w: nat | w < c.workers ensures Handled(c, net, w, j) == [] {
    }
  }

  lemma HandledSame(c: Config, net: Net, step: Step, net': Net, w: nat, j: nat)
    requires WellFormed(c, net) && WellFormed(c, net') && Next(c, net, step, net') && w < c.workers && j < c.servers
    requires step != Take(w, j)
    ensures Handled(c, net', w, j) == Handled(c, net, w, j)
  {
  }

  lemma HandledOneMore(c: Config, net: Net, net': Net, w: nat, j: nat)
    requires WellFormed(c, net) && WellFormed(c, net') && Next(c, net, Take(w, j), net')
    ensures Handled(c, net', w, j) == Handled(c, net, w, j) + [Head(c, net, w, j)]
  {
  }

  /** The label of the message a server handles next is the progress it has recorded for its worker. */
  lemma HeadLabel(c: Config, net: Net, w: nat, j: nat, progress: map<nat, nat>)
    requires Inv(c, net) && w < c.workers && j < c.servers && net.read[w][j] < |net.sent[w][j]|
    requires ClocksHandled(c, net, j, progress)
    ensures match Head(c, net, w, j)
            case AddMsg(a) => a.worker == w && a.clock == progress[w]
            case GetMsg(g) => g.worker == w && g.clock == progress[w]
            case ClockMsg(v) => v == w
  {
    assert LinkOk(net.sent[w][j], w, net.worker[w]);
    assert LabelOk(net.sent[w][j], w, net.worker[w].no, net.read[w][j]);
  }

  /** A step that is not server j's own leaves what it has handled alone. */
  lemma OthersHandled(c: Config, net: Net, step: Step, net': Net, j: nat, adds: seq<AddReq>, progress: map<nat, nat>)
    requires WellFormed(c, net) && WellFormed(c, net') && Next(c, net, step, net') && j < c.servers
    requires step.Take? ==> step.j != j
    requires AddsHandled(c, net, j, adds) && ClocksHandled(c, net, j, progress)
    ensures AddsHandled(c, net', j, adds) && ClocksHandled(c, net', j, progress)
  {
    forall w: nat | w < c.workers ensures Handled(c, net', w, j) == Handled(c, net, w, j) {
      HandledSame(c, net, step, net', w, j);
    }
    forall a ensures HandledAsOften(c, net', j, adds, a) {
      assert HandledAsOften(c, net, j, adds, a);
    }
  }

  lemma OthersGets(c: Config, net: Net, step: Step, net': Net, j: nat, gets: seq<GetReq>)
    requires WellFormed(c, net) && WellFormed(c, net') && Next(c, net, step, net') && j < c.servers
    requires (step.Take? ==> step.j != j) && GetsHandled(c, net, j, gets)
    ensures GetsHandled(c, net', j, gets)
  {
    forall g ensures GetHandledAsOften(c, net', j, gets, g) {
      assert GetHandledAsOften(c, net, j, gets, g);
      if g.worker < c.workers {
        HandledSame(c, net, step, net', g.worker, j);
      }
    }
  }

  /** What a server records of a message: an Add in its list, a Clock in its worker's progress. */
  ghost predicate Records(m: Msg, adds: seq<AddReq>, adds': seq<AddReq>, p: map<nat, nat>, p': map<nat, nat>) {
    match m
    case AddMsg(a) => adds' == adds + [a] && p' == p
    case GetMsg(_) => adds' == adds && p' == p
    case ClockMsg(w) => adds' == adds && w in p && p' == p[w := p[w] + 1]
  }

  /** A server's own step adds the message it handles. */
  lemma OwnHandled(c: Config, net: Net, net': Net, w: nat, j: nat,
                   adds: seq<AddReq>, adds': seq<AddReq>, p: map<nat, nat>, p': map<nat, nat>)
    requires Inv(c, net) && WellFormed(c, net') && Next(c, net, Take(w, j), net')
    requires AddsHandled(c, net, j, adds) && ClocksHandled(c, net, j, p)
    requires Records(Head(c, net, w, j), adds, adds', p, p')
    ensures AddsHandled(c, net', j, adds') && ClocksHandled(c, net', j, p')
  {
    var m := Head(c, net, w, j);
    HeadLabel(c, net, w, j, p);
    HandledOneMore(c, net, net', w, j);
    ClocksSnoc(Handled(c, net, w, j), m);
    forall v: nat | v < c.workers && v != w ensures Handled(c, net', v, j) == Handled(c, net, v, j) {
      HandledSame(c, net, Take(w, j), net', v, j);
    }
    OwnAdds(c, net, net', w, j, adds, adds');
  }

  lemma OwnAdds(c: Config, net: Net, net': Net, w: nat, j: nat, adds: seq<AddReq>, adds': seq<AddReq>)
    requires WellFormed(c, net) && WellFormed(c, net') && Next(c, net, Take(w, j), net')
    requires AddsHandled(c, net, j, adds)
    requires Handled(c, net', w, j) == Handled(c, net, w, j) + [Head(c, net, w, j)]
    requires forall v: nat :: v < c.workers && v != w ==> Handled(c, net', v, j) == Handled(c, net, v, j)
    requires var m := Head(c, net, w, j);
             (m.AddMsg? ==> m.a.worker == w) && adds' == if m.AddMsg? then adds + [m.a] else adds
    ensures AddsHandled(c, net', j, adds')
  {
    forall a ensures HandledAsOften(c, net', j, adds', a) {
      assert HandledAsOften(c, net, j, adds, a);
    }
  }

  lemma OwnGets(c: Config, net: Net, net': Net, w: nat, j: nat, gets: seq<GetReq>, gets': seq<GetReq>)
    requires Inv(c, net) && WellFormed(c, net') && Next(c, net, Take(w, j), net') && GetsHandled(c, net, j, gets)
    requires var m := Head(c, net, w, j); gets' == if m.GetMsg? then gets + [m.g] else gets
    ensures GetsHandled(c, net', j, gets')
  {
    HandledOneMore(c, net, net', w, j);
    assert LinkOk(net.sent[w][j], w, net.worker[w]);
    assert LabelOk(net.sent[w][j], w, net.worker[w].no, net.read[w][j]);
    forall g ensures GetHandledAsOften(c, net', j, gets', g) {
      assert GetHandledAsOften(c, net, j, gets, g);
      if g.worker < c.workers && g.worker != w {
        HandledSame(c, net, Take(w, j), net', g.worker, j);
      }
    }
  }

  /** A Get is handled at most once, and only from its worker's link. */
  lemma GetHandledOnce(c: Config, net: Net, j: nat, gets: seq<GetReq>, g: GetReq)
    requires Inv(c, net) && j < c.servers && GetsHandled(c, net, j, gets)
    ensures multiset(gets)[g] <= 1
    ensures g in gets ==> g.worker < c.workers && GetMsg(g) in Handled(c, net, g.worker, j)
  {
    assert GetHandledAsOften(c, net, j, gets, g);
    if g.worker < c.workers {
      assert LinkOk(net.sent[g.worker][j], g.worker, net.worker[g.worker]);
      OnceInOrder(Handled(c, net, g.worker, j), GetMsg(g));
      assert GetMsg(g) in multiset(Handled(c, net, g.worker, j)) <==> GetMsg(g) in Handled(c, net, g.worker, j);
    }
    assert g in gets <==> g in multiset(gets);
  }

  // ---------------------------------------------------------------- at rest

  /** The servers have handled everything that was sent to them. */
  ghost predicate AtRest(c: Config, net: Net)
    requires WellFormed(c, net)
  {
    forall w: nat, j: nat :: w < c.workers && j < c.servers ==> net.read[w][j] == |net.sent[w][j]|
  }

  /** A server has then recorded every worker's clock, and handled its slice of every Get a worker is blocked in. */
  lemma AllHandledAtRest(c: Config, net: Net, w: nat, j: nat, gets: seq<GetReq>, progress: map<nat, nat>)
    requires Inv(c, net) && AtRest(c, net) && w < c.workers && j < c.servers
    requires GetsHandled(c, net, j, gets) && ClocksHandled(c, net, j, progress)
    ensures progress[w] == net.worker[w].clock
    ensures net.worker[w].asked.Some? ==>
              var g := net.worker[w].asked.value;
              var slice := SliceKeys(c, g.keys, j);
              slice == [] || multiset(gets)[g.(keys := slice)] > 0
  {
    assert net.sent[w][j][..net.read[w][j]] == net.sent[w][j];
    assert LinkOk(net.sent[w][j], w, net.worker[w]) && AskedSent(c, net, w, j) && WorkerOk(net, w);
    if net.worker[w].asked.Some? {
      var g := net.worker[w].asked.value;
      var g' := g.(keys := SliceKeys(c, g.keys, j));
      assert GetHandledAsOften(c, net, j, gets, g');
      assert GetMsg(g') in net.sent[w][j] <==> GetMsg(g') in multiset(net.sent[w][j]);
    }
  }

  /** A message a server has handled comes before, and is numbered below, the one it handles next. */
  lemma HeadIsLater(c: Config, net: Net, w: nat, j: nat, m: Msg)
    requires Inv(c, net) && w < c.workers && j < c.servers && net.read[w][j] < |net.sent[w][j]|
    requires m in Handled(c, net, w, j) && !m.ClockMsg? && !Head(c, net, w, j).ClockMsg?
    ensures SerialOf(m) < SerialOf(Head(c, net, w, j))
  {
    assert LinkOk(net.sent[w][j], w, net.worker[w]);
  }

  /** What has been sent but not yet handled has at least the clock the server has recorded, and a later number. */
  lemma UnhandledIsLater(c: Config, net: Net, w: nat, j: nat, a: AddReq)
    requires Inv(c, net) && w < c.workers && j < c.servers
    requires AddMsg(a) in net.sent[w][j][net.read[w][j]..]
    ensures a.worker == w && a.clock >= Clocks(Handled(c, net, w, j))
    ensures forall m :: m in Handled(c, net, w, j) && !m.ClockMsg? ==> SerialOf(m) < a.no
  {
    var l, r := net.sent[w][j], net.read[w][j];
    assert LinkOk(l, w, net.worker[w]);
    var k: nat :| r <= k < |l| && l[k] == AddMsg(a);
    assert LabelOk(l, w, net.worker[w].no, k);
    ClocksMonotone(l[..k], r);
    assert l[..k][..r] == l[..r];
    forall m | m in l[..r] && !m.ClockMsg? ensures SerialOf(m) < a.no {
      var i: nat :| i < r && l[i] == m;
    }
  }

  /** What a server has recorded of a worker is never ahead of the worker. */
  lemma RecordedAtMost(c: Config, net: Net, w: nat, j: nat)
    requires Inv(c, net) && w < c.workers && j < c.servers
    ensures Clocks(Handled(c, net, w, j)) <= net.worker[w].clock
  {
    assert LinkOk(net.sent[w][j], w, net.worker[w]);
    ClocksMonotone(net.sent[w][j], net.read[w][j]);
  }
}
