/**
 * The client that sends its Gets ahead of time, worker/sparse_kv_client_table.hpp: the first Get sends the
 * requests of the first speculation + 1 iterations, every later one a Clock and one request more.
 */
module SparsePipeline {
  import opened RangeSlicing

  datatype Flag = Add | Get | Clock

  datatype Message = Message(sender: nat, recver: nat, model: nat, flag: Flag, version: int, data: KVPairs)

  /** What the client does, one element for all the messages of one call of Send_() or Clock_(). */
  datatype Event = Request(version: nat) | Update(version: nat, kvs: KVPairs) | Tick(version: nat)

  /** A client's fixed parts: its ids, the partition, the speculation and the keys of every iteration. */
  datatype Config = Config(thread: nat, model: nat, p: Partition, speculation: nat, keys: seq<seq<nat>>)

  ghost predicate ValidConfig(c: Config) {
    Valid(c.p) && c.speculation <= 50 && forall i :: 0 <= i < |c.keys| ==> c.keys[i] != []
  }

  function SlicesOf(c: Config, version: nat): seq<Sliced>
    requires |c.p.ids| == |c.p.ranges| > 0 && version < |c.keys| && c.keys[version] != []
  {
    Slices(c.p, KVPairs(c.keys[version], []))
  }

  function SendTo(c: Config, s: Sliced, isAdd: bool, version: int): Message
  {
    Message(c.thread, s.server, c.model, if isAdd then Add else Get, version,
            KVPairs(s.kvs.keys, if isAdd && s.kvs.keys != [] then s.kvs.vals else []))
  }

  function Sends(c: Config, sliced: seq<Sliced>, isAdd: bool, version: int): (ms: seq<Message>)
    ensures |ms| == |sliced|
  {
    seq(|sliced|, i requires 0 <= i < |sliced| => SendTo(c, sliced[i], isAdd, version))
  }

  function Ticks(c: Config, version: int): (ms: seq<Message>)
    ensures |ms| == |c.p.ids|
  {
    seq(|c.p.ids|,
        i requires 0 <= i < |c.p.ids| => Message(c.thread, c.p.ids[i], c.model, Clock, version, KVPairs([], [])))
  }

  ghost predicate ValidEvent(c: Config, e: Event) {
    match e
    case Request(v) => v < |c.keys|
    case Update(_, kvs) => kvs.keys != []
    case Tick(_) => true
  }

  ghost function MessagesOf(c: Config, e: Event): seq<Message>
    requires ValidConfig(c) && ValidEvent(c, e)
  {
    match e
    case Request(v) => Sends(c, SlicesOf(c, v), false, v)
    case Update(v, kvs) => Sends(c, Slices(c.p, kvs), true, v)
    case Tick(v) => Ticks(c, v)
  }

  /** The messages of an event. */
  ghost function Sender(c: Config): Event -> seq<Message>
  {
    e => if ValidConfig(c) && ValidEvent(c, e) then MessagesOf(c, e) else []
  }

  /** What f makes of all elements, in order. */
  ghost function Flat<E, M>(f: E -> seq<M>, es: seq<E>): seq<M>
  {
    if es == [] then [] else Flat(f, es[..|es| - 1]) + f(es[|es| - 1])
  }

  lemma FlatSnoc<E, M>(f: E -> seq<M>, es: seq<E>, e: E)
    ensures Flat(f, es + [e]) == Flat(f, es) + f(e)
  {
    assert (es + [e])[..|es|] == es;
  }

  // ---------------------------------------------------------------- the history of a client

  function FirstRequests(n: nat): (es: seq<Event>)
    ensures |es| == n && forall i :: 0 <= i < n ==> es[i] == Request(i)
  {
    seq(n, i requires 0 <= i < n => Request(i))
  }

  /** The events after gets calls of Get() and the given Adds, one after each Get but perhaps the last. */
  function History(speculation: nat, gets: nat, adds: seq<KVPairs>): seq<Event>
    requires |adds| <= gets <= |adds| + 1
    decreases gets + |adds|
  {
    if gets == 0 then []
    else if |adds| == gets then
      History(speculation, gets, adds[..gets - 1]) + [Update(gets - 1, adds[gets - 1])]
    else if gets == 1 then
      FirstRequests(speculation + 1)
    else
      History(speculation, gets - 1, adds) + [Tick(gets - 2), Request(gets - 1 + speculation)]
  }

  function HistoryLength(speculation: nat, gets: nat, adds: nat): nat
    requires adds <= gets <= adds + 1
  {
    if gets == 0 then 0 else speculation + 1 + 2 * (gets - 1) + adds
  }

  /**
   * Whether e is the k-th event of a client that goes on for ever: the requests in advance, then Add, Clock,
   * request in turn.
   */
  ghost predicate Scheduled(speculation: nat, adds: seq<KVPairs>, k: nat, e: Event) {
    if k <= speculation then e == Request(k)
    else
      var round, turn := (k - speculation - 1) / 3, (k - speculation - 1) % 3;
      if turn == 0 then round < |adds| && e == Update(round, adds[round])
      else if turn == 1 then e == Tick(round)
      else e == Request(round + 1 + speculation)
  }

  ghost predicate OnSchedule(speculation: nat, gets: nat, adds: seq<KVPairs>)
    requires |adds| <= gets <= |adds| + 1
  {
    var h := History(speculation, gets, adds);
    && |h| == HistoryLength(speculation, gets, |adds|)
    && forall k :: 0 <= k < |h| ==> Scheduled(speculation, adds, k, h[k])
  }

  /** A client's history is the schedule as far as it got. */
  lemma {:induction false} HistoryIsScheduled(speculation: nat, gets: nat, adds: seq<KVPairs>)
    requires |adds| <= gets <= |adds| + 1
    ensures OnSchedule(speculation, gets, adds)
    decreases gets + |adds|
  {
    if gets == 0 {
    } else if |adds| == gets {
      HistoryIsScheduled(speculation, gets, adds[..gets - 1]);
      AddOnSchedule(speculation, gets, adds);
    } else if gets > 1 {
      HistoryIsScheduled(speculation, gets - 1, adds);
      GetOnSchedule(speculation, gets, adds);
    }
  }

  lemma AddOnSchedule(speculation: nat, gets: nat, adds: seq<KVPairs>)
    requires |adds| == gets > 0 && OnSchedule(speculation, gets, adds[..gets - 1])
    ensures OnSchedule(speculation, gets, adds)
  {
    var before := History(speculation, gets, adds[..gets - 1]);
    forall k | 0 <= k < |before| ensures Scheduled(speculation, adds, k, before[k]) {
      assert Scheduled(speculation, adds[..gets - 1], k, before[k]);
    }
    Turn(speculation, gets - 1, 0, |before|);
  }

  lemma GetOnSchedule(speculation: nat, gets: nat, adds: seq<KVPairs>)
    requires |adds| + 1 == gets > 1 && OnSchedule(speculation, gets - 1, adds)
    ensures OnSchedule(speculation, gets, adds)
  {
    var before := History(speculation, gets - 1, adds);
    Turn(speculation, gets - 2, 1, |before|);
    Turn(speculation, gets - 2, 2, |before| + 1);
  }

  lemma Turn(speculation: nat, round: nat, turn: nat, k: nat)
    requires turn < 3 && k == speculation + 1 + 3 * round + turn
    ensures (k - speculation - 1) / 3 == round && (k - speculation - 1) % 3 == turn
  {
  }

  /** The position of the request of a version, of an Add, and of a Clock. */
  function RequestAt(speculation: nat, version: nat): nat
  {
    if version <= speculation then version else speculation + 3 + 3 * (version - speculation - 1)
  }

  function UpdateAt(speculation: nat, version: nat): nat
  {
    speculation + 1 + 3 * version
  }

  function TickAt(speculation: nat, version: nat): nat
  {
    speculation + 2 + 3 * version
  }

  /**
   * After gets calls of Get(): the versions 0 to gets - 1 + speculation, and no others, have been requested,
   * once each and in increasing order; Clocks 0 to gets - 2 and the Adds have been sent once each.
   */
  lemma EachOnceInOrder(speculation: nat, gets: nat, adds: seq<KVPairs>, k: nat)
    requires |adds| <= gets <= |adds| + 1 && k < |History(speculation, gets, adds)|
    ensures match History(speculation, gets, adds)[k]
            case Request(v) => v < gets + speculation && k == RequestAt(speculation, v)
            case Tick(v) => v + 1 < gets && k == TickAt(speculation, v)
            case Update(v, kvs) => v < |adds| && kvs == adds[v] && k == UpdateAt(speculation, v)
  {
    HistoryIsScheduled(speculation, gets, adds);
    assert Scheduled(speculation, adds, k, History(speculation, gets, adds)[k]);
  }

  lemma AllAreThere(speculation: nat, gets: nat, adds: seq<KVPairs>, v: nat)
    requires |adds| <= gets <= |adds| + 1 && gets > 0
    ensures v < gets + speculation ==>
              RequestAt(speculation, v) < |History(speculation, gets, adds)|
                && History(speculation, gets, adds)[RequestAt(speculation, v)] == Request(v)
    ensures v + 1 < gets ==>
              TickAt(speculation, v) < |History(speculation, gets, adds)|
                && History(speculation, gets, adds)[TickAt(speculation, v)] == Tick(v)
    ensures v < |adds| ==>
              UpdateAt(speculation, v) < |History(speculation, gets, adds)|
                && History(speculation, gets, adds)[UpdateAt(speculation, v)] == Update(v, adds[v])
  {
    var h := History(speculation, gets, adds);
    HistoryIsScheduled(speculation, gets, adds);
    if v < gets + speculation {
      if v > speculation {
        Turn(speculation, v - speculation - 1, 2, RequestAt(speculation, v));
      }
      assert Scheduled(speculation, adds, RequestAt(speculation, v), h[RequestAt(speculation, v)]);
    }
    if v + 1 < gets {
      Turn(speculation, v, 1, TickAt(speculation, v));
      assert Scheduled(speculation, adds, TickAt(speculation, v), h[TickAt(speculation, v)]);
    }
    if v < |adds| {
      Turn(speculation, v, 0, UpdateAt(speculation, v));
      assert Scheduled(speculation, adds, UpdateAt(speculation, v), h[UpdateAt(speculation, v)]);
    }
  }

  /** Whatever a client has done so far: Add i comes before Clock i, and Clock i before request i + 1 + speculation. */
  lemma ClockPrecedesRequest(speculation: nat, gets: nat, adds: seq<KVPairs>, i: nat, a: nat, b: nat)
    requires |adds| <= gets <= |adds| + 1 && a < |History(speculation, gets, adds)|
             && b < |History(speculation, gets, adds)|
    requires History(speculation, gets, adds)[b] == Tick(i)
    ensures History(speculation, gets, adds)[a] == Request(i + 1 + speculation) ==> b < a
    ensures History(speculation, gets, adds)[a] == Request(i + speculation) ==> a < b
    ensures History(speculation, gets, adds)[a].Update? && History(speculation, gets, adds)[a].version == i ==> a < b
  {
    EachOnceInOrder(speculation, gets, adds, a);
    EachOnceInOrder(speculation, gets, adds, b);
  }

  // ---------------------------------------------------------------- the client

  /** Keys for every request sent, and an Add, with keys, after each Get but perhaps the last. */
  ghost predicate IsPossible(c: Config, gets: nat, adds: seq<KVPairs>) {
    && ValidConfig(c) && |adds| <= gets <= |adds| + 1
    && (gets > 0 ==> gets + c.speculation <= |c.keys|)
    && forall i :: 0 <= i < |adds| ==> adds[i].keys != []
  }

  ghost function RequestMessages(c: Config, version: nat): seq<Message>
    requires ValidConfig(c) && version < |c.keys|
  {
    MessagesOf(c, Request(version))
  }

  ghost function FirstMessages(c: Config, n: nat): seq<Message>
    requires ValidConfig(c) && n <= |c.keys|
  {
    if n == 0 then [] else FirstMessages(c, n - 1) + RequestMessages(c, n - 1)
  }

  /** The messages of a client after these Gets and Adds. */
  ghost function SentBy(c: Config, gets: nat, adds: seq<KVPairs>): seq<Message>
    requires IsPossible(c, gets, adds)
    decreases gets + |adds|
  {
    if gets == 0 then []
    else if |adds| == gets then
      SentBy(c, gets, adds[..gets - 1]) + Sends(c, Slices(c.p, adds[gets - 1]), true, gets - 1)
    else if gets == 1 then
      FirstMessages(c, c.speculation + 1)
    else
      SentBy(c, gets - 1, adds) + Ticks(c, gets - 2) + RequestMessages(c, gets - 1 + c.speculation)
  }

  lemma {:induction false} FirstMessagesAreRequests(c: Config, f: Event -> seq<Message>, n: nat)
    requires ValidConfig(c) && n <= |c.keys| && f == Sender(c)
    ensures FirstMessages(c, n) == Flat(f, FirstRequests(n))
  {
    if n == 0 {
    } else {
      FirstMessagesAreRequests(c, f, n - 1);
      assert FirstRequests(n) == FirstRequests(n - 1) + [Request(n - 1)];
      FlatSnoc(f, FirstRequests(n - 1), Request(n - 1));
    }
  }

  ghost predicate IsHistory(c: Config, f: Event -> seq<Message>, gets: nat, adds: seq<KVPairs>)
    requires IsPossible(c, gets, adds)
  {
    SentBy(c, gets, adds) == Flat(f, History(c.speculation, gets, adds))
  }

  lemma AddIsHistory(c: Config, f: Event -> seq<Message>, gets: nat, adds: seq<KVPairs>)
    requires IsPossible(c, gets, adds) && f == Sender(c) && |adds| == gets > 0
             && IsHistory(c, f, gets, adds[..gets - 1])
    ensures IsHistory(c, f, gets, adds)
  {
    FlatSnoc(f, History(c.speculation, gets, adds[..gets - 1]), Update(gets - 1, adds[gets - 1]));
  }

  lemma GetIsHistory(c: Config, f: Event -> seq<Message>, gets: nat, adds: seq<KVPairs>)
    requires IsPossible(c, gets, adds) && f == Sender(c) && |adds| < gets && gets > 1 && IsHistory(c, f, gets - 1, adds)
    ensures IsHistory(c, f, gets, adds)
  {
    hide SentBy, History, Flat, Ticks, RequestMessages, Sender;
    var v := gets - 1 + c.speculation;
    SenderOf(c, gets - 2, v);
    HistoryStep(c.speculation, gets, adds);
    SentStep(c, gets, adds);
    FlatTwoMore(f, History(c.speculation, gets - 1, adds), Tick(gets - 2), Request(v),
                SentBy(c, gets - 1, adds), Ticks(c, gets - 2), RequestMessages(c, v));
  }

  lemma SenderOf(c: Config, v: nat, w: nat)
    requires ValidConfig(c) && w < |c.keys|
    ensures Sender(c)(Tick(v)) == Ticks(c, v) && Sender(c)(Request(w)) == RequestMessages(c, w)
  {
  }

  lemma HistoryStep(speculation: nat, gets: nat, adds: seq<KVPairs>)
    requires |adds| + 1 == gets > 1
    ensures History(speculation, gets, adds) ==
              History(speculation, gets - 1, adds) + [Tick(gets - 2), Request(gets - 1 + speculation)]
  {
  }

  lemma SentStep(c: Config, gets: nat, adds: seq<KVPairs>)
    requires IsPossible(c, gets, adds) && |adds| + 1 == gets > 1
    ensures SentBy(c, gets, adds) ==
              SentBy(c, gets - 1, adds) + Ticks(c, gets - 2) + RequestMessages(c, gets - 1 + c.speculation)
  {
  }

  lemma FlatTwoMore<E, M>(f: E -> seq<M>, es: seq<E>, e: E, e': E, s: seq<M>, t: seq<M>, t': seq<M>)
    requires s == Flat(f, es) && f(e) == t && f(e') == t'
    ensures s + t + t' == Flat(f, es + [e, e'])
  {
    FlatTwo(f, es, e, e');
  }

  /** The messages are those of the client's history, event by event. */
  lemma {:induction false} SentIsHistory(c: Config, f: Event -> seq<Message>, gets: nat, adds: seq<KVPairs>)
    requires IsPossible(c, gets, adds) && f == Sender(c)
    ensures SentBy(c, gets, adds) == Flat(f, History(c.speculation, gets, adds))
    decreases gets + |adds|
  {
    if gets == 0 {
    } else if |adds| == gets {
      hide SentBy, History, Flat, Sender;
      SentIsHistory(c, f, gets, adds[..gets - 1]);
      AddIsHistory(c, f, gets, adds);
    } else if gets == 1 {
      FirstMessagesAreRequests(c, f, c.speculation + 1);
    } else {
      hide SentBy, History, Flat, Sender;
      SentIsHistory(c, f, gets - 1, adds);
      GetIsHistory(c, f, gets, adds);
    }
  }

  lemma FlatTwo<E, M>(f: E -> seq<M>, es: seq<E>, e: E, e': E)
    ensures Flat(f, es + [e, e']) == Flat(f, es) + f(e) + f(e')
  {
    FlatSnoc(f, es, e);
    FlatSnoc(f, es + [e], e');
    assert es + [e] + [e'] == es + [e, e'];
  }

  // ---------------------------------------------------------------- every message of a run

  /** One message for each of these slices, to its server, with its keys. */
  ghost predicate OneForEachSlice(c: Config, sliced: seq<Sliced>, flag: Flag, version: int, ms: seq<Message>) {
    && |ms| == |sliced|
    && forall i :: 0 <= i < |ms| ==>
         && ms[i].sender == c.thread && ms[i].recver == sliced[i].server && ms[i].model == c.model
         && ms[i].flag == flag && ms[i].version == version
         && ms[i].data == if flag == Add then sliced[i].kvs else KVPairs(sliced[i].kvs.keys, [])
  }

  /**
   * The messages that carry out an event: Gets for the keys of a version, Adds with the values, or one Clock to
   * every server.
   */
  ghost predicate CarryOut(c: Config, e: Event, ms: seq<Message>) {
    && ValidConfig(c) && ValidEvent(c, e)
    && match e
       case Request(v) => OneForEachSlice(c, Slices(c.p, KVPairs(c.keys[v], [])), Get, v, ms)
       case Update(v, kvs) => OneForEachSlice(c, Slices(c.p, kvs), Add, v, ms)
       case Tick(v) =>
         && |ms| == |c.p.ids|
         && forall i :: 0 <= i < |ms| ==>
              ms[i] == Message(c.thread, c.p.ids[i], c.model, Clock, v, KVPairs([], []))
  }

  lemma EventCarriedOut(c: Config, e: Event)
    requires ValidConfig(c) && ValidEvent(c, e)
    ensures CarryOut(c, e, MessagesOf(c, e))
  {
    if e.Update? {
      NoSliceEmpty(c.p, e.kvs, 0, LowerBound(e.kvs.keys, 0, c.p.ranges[0].begin));
    }
  }

  lemma UpdateCarriedOut(c: Config, version: nat, kvs: KVPairs)
    requires ValidConfig(c) && kvs.keys != []
    ensures CarryOut(c, Update(version, kvs), Sends(c, Slices(c.p, kvs), true, version))
  {
    EventCarriedOut(c, Update(version, kvs));
  }

  lemma TickCarriedOut(c: Config, version: nat)
    requires ValidConfig(c)
    ensures CarryOut(c, Tick(version), Ticks(c, version))
  {
    EventCarriedOut(c, Tick(version));
  }

  lemma RequestCarriedOut(c: Config, version: nat)
    requires ValidConfig(c) && version < |c.keys|
    ensures CarryOut(c, Request(version), RequestMessages(c, version))
  {
    EventCarriedOut(c, Request(version));
  }

  lemma Appended<M>(before: seq<M>, a: seq<M>, b: seq<M>, after: seq<M>)
    requires after == before + a + b
    ensures before <= after && |before| + |a| <= |after|
    ensures after[|before|..|before| + |a|] == a && after[|before| + |a|..] == b
  {
  }

  lemma HistoryValid(c: Config, gets: nat, adds: seq<KVPairs>, k: nat)
    requires IsPossible(c, gets, adds) && k < |History(c.speculation, gets, adds)|
    ensures ValidEvent(c, History(c.speculation, gets, adds)[k])
  {
    EachOnceInOrder(c.speculation, gets, adds, k);
  }

  function Concat<M>(parts: seq<seq<M>>): seq<M>
  {
    if parts == [] then [] else Concat(parts[..|parts| - 1]) + parts[|parts| - 1]
  }

  lemma {:induction false} FlatIsConcat<E, M>(f: E -> seq<M>, es: seq<E>, parts: seq<seq<M>>)
    requires |parts| == |es| && forall k :: 0 <= k < |es| ==> parts[k] == f(es[k])
    ensures Flat(f, es) == Concat(parts)
  {
    if es == [] {
    } else {
      FlatIsConcat(f, es[..|es| - 1], parts[..|es| - 1]);
    }
  }

  /**
   * Whatever a client has done, what it has sent falls into one part for each event of its history, in that
   * order, and each part carries out its event.
   */
  lemma SentCarriesOutHistory(c: Config, gets: nat, adds: seq<KVPairs>) returns (parts: seq<seq<Message>>)
    requires IsPossible(c, gets, adds)
    ensures SentBy(c, gets, adds) == Concat(parts)
    ensures |parts| == |History(c.speculation, gets, adds)|
    ensures forall k :: 0 <= k < |parts| ==> CarryOut(c, History(c.speculation, gets, adds)[k], parts[k])
  {
    hide SentBy, History, CarryOut;
    var f, h := Sender(c), History(c.speculation, gets, adds);
    parts := seq(|h|, k requires 0 <= k < |h| => f(h[k]));
    SentIsHistory(c, f, gets, adds);
    FlatIsConcat(f, h, parts);
    forall k | 0 <= k < |h| ensures CarryOut(c, h[k], parts[k]) {
      HistoryValid(c, gets, adds, k);
      EventCarriedOut(c, h[k]);
    }
  }

  /** CheckFailed ends the process; OutOfBounds is an access that the language leaves undefined. */
  datatype Outcome = Sent | CheckFailed | OutOfBounds

  class SparseKVClientTable {
    const c: Config
    var downstream: seq<Message>
    /** The arguments of NewRequest(), in order. */
    var newRequests: seq<nat>
    var numReqs: seq<nat>
    var getCount: nat
    var addCount: nat
    ghost var adds: seq<KVPairs>

    ghost predicate Valid()
      reads this
    {
      && IsPossible(c, getCount, adds) && |adds| == addCount
      && downstream == SentBy(c, getCount, adds)
      && IsCounted(c, numReqs, if getCount == 0 then 0 else getCount + c.speculation)
      && IsCounted(c, newRequests, getCount)
    }

    constructor (c: Config)
      requires ValidConfig(c)
      ensures Valid() && this.c == c && getCount == addCount == 0 && adds == []
    {
      this.c := c;
      downstream, newRequests, numReqs, getCount, addCount, adds := [], [], [], 0, 0, [];
    }

    method Send(sliced: seq<Sliced>, isAdd: bool, version: int)
      modifies this`downstream
      ensures downstream == old(downstream) + Sends(c, sliced, isAdd, version)
    {
      for i := 0 to |sliced|
        invariant downstream == old(downstream) + Sends(c, sliced, isAdd, version)[..i]
      {
        downstream := downstream + [SendTo(c, sliced[i], isAdd, version)];
      }
      assert Sends(c, sliced, isAdd, version)[..|sliced|] == Sends(c, sliced, isAdd, version);
    }

    method ClockAll()
      modifies this`downstream
      ensures downstream == old(downstream) + Ticks(c, getCount - 2)
    {
      for i := 0 to |c.p.ids|
        invariant downstream == old(downstream) + Ticks(c, getCount - 2)[..i]
      {
        downstream := downstream + [Message(c.thread, c.p.ids[i], c.model, Clock, getCount - 2, KVPairs([], []))];
      }
      assert Ticks(c, getCount - 2)[..|c.p.ids|] == Ticks(c, getCount - 2);
    }

    /** ok is false when a check fails, which ends the process. */
    method AddPairs(kvs: KVPairs) returns (ok: bool)
      requires Valid() && kvs.keys != []
      modifies this
      ensures ok <==> old(getCount) == old(addCount) + 1
      ensures ok ==> Valid() && getCount == old(getCount) && adds == old(adds) + [kvs]
      ensures ok ==> old(downstream) <= downstream
                     && CarryOut(c, Update(getCount - 1, kvs), downstream[|old(downstream)|..])
    {
      addCount := addCount + 1;
      if getCount != addCount {
        return false;
      }
      hide CarryOut, Sends;
      var sliced := Slices(c.p, kvs);
      Send(sliced, true, getCount - 1);
      UpdateCarriedOut(c, getCount - 1, kvs);
      assert downstream[|old(downstream)|..] == Sends(c, sliced, true, getCount - 1);
      adds := adds + [kvs];
      assert adds[..getCount - 1] == old(adds);
      return true;
    }

    /**
     * Get_() up to WaitRequest().  Without speculation, every Get but the first reads num_reqs_ behind its
     * end; otherwise the Get goes through exactly when there are keys for the request it sends.
     */
    method GetUpToWait() returns (r: Outcome)
      requires Valid()
      modifies this
      ensures r == CheckFailed <==> old(getCount) != old(addCount) ||
                                    (!(c.speculation == 0 && old(getCount) > 0)
                                        && old(getCount) + 1 + c.speculation > |c.keys|)
      ensures r == OutOfBounds <==> old(getCount) == old(addCount) && c.speculation == 0 && old(getCount) > 0
      ensures r == Sent ==> Valid() && getCount == old(getCount) + 1 && adds == old(adds)
      ensures r == Sent ==> newRequests[getCount - 1] == |Slices(c.p, KVPairs(c.keys[getCount - 1], []))|
    {
      hide RequestMessages, FirstMessages, Ticks, CarryOut;
      if getCount != addCount {
        return CheckFailed;
      }
      getCount := getCount + 1;
      if getCount == 1 {
        var ok := SendFirst();
        r := if ok then Sent else CheckFailed;
      } else {
        r := SendNext();
      }
    }

    /** One request: its slices are counted and sent. */
    method RequestKeys(version: nat)
      requires ValidConfig(c) && version < |c.keys| && IsCounted(c, numReqs, version)
      modifies this`downstream, this`numReqs
      ensures downstream == old(downstream) + RequestMessages(c, version) && IsCounted(c, numReqs, version + 1)
    {
      var sliced := SlicesOf(c, version);
      numReqs := numReqs + [|sliced|];
      Send(sliced, false, version);
    }

    /** First the Clock of one version was carried out, then the request of the other. */
    ghost predicate CarryOutBoth(before: seq<Message>, after: seq<Message>, tick: nat, request: nat) {
      var ticks := |before| + |c.p.ids|;
      && before <= after && ticks <= |after|
      && CarryOut(c, Tick(tick), after[|before|..ticks]) && CarryOut(c, Request(request), after[ticks..])
    }

    lemma BothCarriedOut(before: seq<Message>, after: seq<Message>, tick: nat, request: nat)
      requires ValidConfig(c) && request < |c.keys|
      requires after == before + Ticks(c, tick) + RequestMessages(c, request)
      ensures CarryOutBoth(before, after, tick, request)
    {
      TickCarriedOut(c, tick);
      RequestCarriedOut(c, request);
      Appended(before, Ticks(c, tick), RequestMessages(c, request), after);
    }

    /** A later Get: a new request, a Clock, and the messages of one version more; after the Clock replies may come. */
    method SendNext() returns (r: Outcome)
      requires ValidConfig(c) && getCount > 1
      requires IsCounted(c, numReqs, getCount - 1 + c.speculation) && IsCounted(c, newRequests, getCount - 1)
      modifies this`downstream, this`numReqs, this`newRequests
      ensures r == OutOfBounds <==> c.speculation == 0
      ensures r == CheckFailed <==> c.speculation > 0 && getCount + c.speculation > |c.keys|
      ensures r == Sent ==>
                downstream ==
                    old(downstream) + Ticks(c, getCount - 2) + RequestMessages(c, getCount - 1 + c.speculation)
      ensures r == Sent ==> IsCounted(c, numReqs, getCount + c.speculation) && IsCounted(c, newRequests, getCount)
      ensures r == Sent ==> CarryOutBoth(old(downstream), downstream, getCount - 2, getCount - 1 + c.speculation)
    {
      hide CarryOutBoth, Ticks, RequestMessages, IsCounted, SlicesOf;
      CountedLength(c, numReqs, getCount - 1 + c.speculation);
      if getCount - 1 >= |numReqs| {
        return OutOfBounds;
      }
      OneMoreCounted(c, newRequests, numReqs, getCount);
      newRequests := newRequests + [numReqs[getCount - 1]];
      ClockAll();
      var version := getCount - 1 + c.speculation;
      if !(version < |c.keys|) {
        return CheckFailed;
      }
      RequestKeys(version);
      BothCarriedOut(old(downstream), downstream, getCount - 2, version);
      return Sent;
    }

    /** The requests in advance; a new request comes with the first. */
    method SendFirst() returns (ok: bool)
      requires ValidConfig(c) && getCount == 1 && downstream == [] && numReqs == [] && newRequests == []
      modifies this`downstream, this`numReqs, this`newRequests
      ensures ok <==> c.speculation + 1 <= |c.keys|
      ensures ok ==> downstream == FirstMessages(c, c.speculation + 1)
      ensures ok ==> IsCounted(c, numReqs, c.speculation + 1) && IsCounted(c, newRequests, 1)
    {
      hide SlicesOf, RequestMessages;
      var i := 0;
      while i < c.speculation + 1
        invariant 0 <= i <= c.speculation + 1 && i <= |c.keys|
        invariant downstream == FirstMessages(c, i)
        invariant IsCounted(c, numReqs, i) && IsCounted(c, newRequests, if i == 0 then 0 else 1)
      {
        if !(i < |c.keys|) {
          return false;
        }
        if i == 0 {
          newRequests := newRequests + [|SlicesOf(c, i)|];
        }
        RequestKeys(i);
        i := i + 1;
      }
      return true;
    }
  }

  /**
   * Without speculation, a client with keys for one iteration is enough: Get, Add and Get again, and the second
   * Get reads num_reqs_ behind its end.
   */
  method SecondGetOutOfBounds(c: Config, kvs: KVPairs) returns (r: Outcome)
    requires ValidConfig(c) && c.speculation == 0 && c.keys != [] && kvs.keys != []
    ensures r == OutOfBounds
  {
    var client := new SparseKVClientTable(c);
    r := client.GetUpToWait();
    var ok := client.AddPairs(kvs);
    r := client.GetUpToWait();
  }

  /** The i-th of n counts is the number of slices of the i-th keys. */
  ghost predicate IsCounted(c: Config, counts: seq<nat>, n: nat)
    requires ValidConfig(c)
  {
    |counts| == n <= |c.keys| && forall i :: 0 <= i < n ==> counts[i] == |SlicesOf(c, i)|
  }

  lemma CountedLength(c: Config, counts: seq<nat>, n: nat)
    requires ValidConfig(c) && IsCounted(c, counts, n)
    ensures |counts| == n <= |c.keys|
  {
  }

  lemma OneMoreCounted(c: Config, counts: seq<nat>, all: seq<nat>, n: nat)
    requires ValidConfig(c) && 0 < n <= |all| && IsCounted(c, counts, n - 1) && IsCounted(c, all, |all|)
    ensures IsCounted(c, counts + [all[n - 1]], n)
  {
  }
}
