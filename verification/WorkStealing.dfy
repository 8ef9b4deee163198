/**
 * Work stealing among all workers, examples/rapid_reassignment: what every run keeps.  A call of Check()
 * and the handling of a message are one step each; messages arrive in any order.
 */
module WorkStealing {
  import opened Basics
  import opened RapidReassignment

  /** The group members of every worker, and the steal threshold. */
  datatype Config = Config(group: seq<seq<nat>>, threshold: real)

  /**
   * The messages in flight are kept by the search they belong to: net[i] has those of worker i's.  The
   * indices handed out and those worked on, with multiplicities, are for the specification.
   */
  datatype State = State(ws: seq<Worker>, net: seq<seq<Message>>, issued: multiset<nat>, processed: multiset<nat>)

  datatype Step =
    | Assign(i: nat, iter: nat, start: nat, batch: nat)
    | Check(i: nat)
    | Deliver(i: nat, p: nat)

  ghost predicate ValidConfig(c: Config) {
    forall i :: 0 <= i < |c.group| ==> ValidGroup(c, c.group[i])
  }

  ghost predicate ValidGroup(c: Config, group: seq<nat>) {
    forall k :: 0 <= k < |group| ==> group[k] < |c.group|
  }

  ghost predicate WellFormed(c: Config, s: State) {
    |s.ws| == |s.net| == |c.group|
  }

  function Interval(start: nat, size: nat): multiset<nat>
  {
    if size == 0 then multiset{} else Interval(start, size - 1) + multiset{start + size - 1}
  }

  /** The worker whose search a message belongs to. */
  function Asker(m: Message): nat
  {
    match m
    case FindTask(from, _) => from
    case SendStatus(_, to, _) => to
    case SendHelp(from, _, _) => from
    case ConfirmHelp(_, to, _) => to
    case CancelHelp(_, to) => to
  }

  function Without<T>(l: seq<T>, p: nat): seq<T>
    requires p < |l|
  {
    l[..p] + l[p + 1..]
  }

  /** The handlers are only defined on statuses whose position is in range. */
  ghost predicate Deliverable(c: Config, s: State, m: Message)
    requires WellFormed(c, s)
  {
    m.to < |s.ws| && BoxInRange(s.ws[m.to].box) && (m.SendStatus? ==> InRange(m.meta))
  }

  ghost predicate Next(c: Config, s: State, step: Step, s': State)
    requires WellFormed(c, s)
  {
    match step
    case Assign(i, iter, start, batch) =>
      && i < |s.ws| && !s.ws[i].wait && IsFinished(s.ws[i].job)
      && var job := s.ws[i].job.(iter := iter, start := start, cur := start, batch := batch);
         s' == s.(ws := s.ws[i := s.ws[i].(job := job)], issued := s.issued + Interval(start, batch))
    case Check(i) =>
      && i < |s.ws| && !s.ws[i].wait && !IsFinished(s.ws[i].job)
      && var r := Checked(s.ws[i], i, c.group[i]);
         s' == State(s.ws[i := r.0], s.net[i := s.net[i] + r.1], s.issued, s.processed + multiset{s.ws[i].job.cur})
    case Deliver(i, p) =>
      && i < |s.net| && p < |s.net[i]|
      && var m := s.net[i][p];
         && Deliverable(c, s, m)
         && var r := Handle(s.ws[m.to], c.group[m.to], c.threshold, m);
            s' == s.(ws := s.ws[m.to := r.0], net := s.net[i := Without(s.net[i], p) + r.1])
  }

  ghost predicate Idle(s: State, i: nat)
    requires i < |s.ws| && i < |s.net|
  {
    s.ws[i] == Worker(JobMeta(0, 0, 0, 0, 0), false, []) && s.net[i] == []
  }

  ghost predicate Init(c: Config, s: State) {
    && WellFormed(c, s)
    && (forall i :: 0 <= i < |c.group| ==> Idle(s, i))
    && s.issued == s.processed == multiset{}
  }

  ghost predicate IsRun(c: Config, tr: seq<State>, steps: seq<Step>) {
    && ValidConfig(c) && |tr| == |steps| + 1
    && (forall k :: 0 <= k < |tr| ==> WellFormed(c, tr[k]))
    && (forall k :: 0 <= k < |steps| ==> Next(c, tr[k], steps[k], tr[k + 1]))
    && Init(c, tr[0])
  }

  // ---------------------------------------------------------------- one round at a time

  ghost predicate MessageOk(c: Config, i: nat, m: Message) {
    Asker(m) == i && m.from < |c.group| && m.to < |c.group| && (m.SendStatus? ==> InRange(m.meta))
  }

  ghost predicate AllOk(c: Config, i: nat, l: seq<Message>) {
    forall k :: 0 <= k < |l| ==> MessageOk(c, i, l[k])
  }

  ghost predicate StatusOk(c: Config, m: JobMeta) {
    InRange(m) && m.thread < |c.group|
  }

  ghost predicate BoxOk(c: Config, box: seq<JobMeta>) {
    forall k :: 0 <= k < |box| ==> StatusOk(c, box[k])
  }

  predicate IsQuestion(m: Message) {
    m.FindTask? || m.SendStatus?
  }

  ghost predicate AllQuestions(l: seq<Message>) {
    forall k :: 0 <= k < |l| ==> IsQuestion(l[k])
  }

  /** Questions in flight, statuses in flight and statuses boxed add up to the group. */
  ghost predicate Searching(w: Worker, l: seq<Message>, groupSize: nat) {
    AllQuestions(l) && |l| + |w.box| == groupSize && (|w.box| < groupSize || w.box == [])
  }

  /** One SendHelp, ConfirmHelp or CancelHelp is outstanding, and nothing else. */
  ghost predicate Settling(w: Worker, l: seq<Message>) {
    |l| == 1 && !IsQuestion(l[0]) && w.box == []
  }

  ghost predicate RoundOk(w: Worker, l: seq<Message>, groupSize: nat) {
    if w.wait then Searching(w, l, groupSize) || Settling(w, l) else l == [] && w.box == []
  }

  ghost predicate PlaceOk(c: Config, s: State, i: nat)
    requires WellFormed(c, s) && i < |c.group|
  {
    && InRange(s.ws[i].job) && BoxOk(c, s.ws[i].box) && AllOk(c, i, s.net[i])
    && RoundOk(s.ws[i], s.net[i], |c.group[i]|)
  }

  ghost predicate Inv(c: Config, s: State) {
    && ValidConfig(c) && WellFormed(c, s)
    && forall i: nat :: i < |c.group| ==> PlaceOk(c, s, i)
  }

  /** The next three lemmas: what handling a message leaves of its search. */
  lemma FindTaskRound(c: Config, w: Worker, l: seq<Message>, i: nat, p: nat, v: Worker)
    requires i < |c.group| && p < |l| && AllOk(c, i, l) && RoundOk(w, l, |c.group[i]|)
    requires l[p].FindTask? && InRange(v.job)
    ensures var out := [SendStatus(l[p].to, l[p].from, v.job)];
            AllOk(c, i, Without(l, p) + out) && RoundOk(w, Without(l, p) + out, |c.group[i]|)
  {
    assert IsQuestion(l[p]);
  }

  lemma SendStatusRound(c: Config, w: Worker, l: seq<Message>, i: nat, p: nat)
    requires ValidConfig(c) && i < |c.group| && p < |l| && AllOk(c, i, l) && BoxOk(c, w.box) && BoxInRange(w.box)
    requires RoundOk(w, l, |c.group[i]|) && l[p].SendStatus?
    ensures l[p].to == i
    ensures var r := Handle(w, c.group[i], c.threshold, l[p]);
            AllOk(c, i, Without(l, p) + r.1) && RoundOk(r.0, Without(l, p) + r.1, |c.group[i]|)
  {
    assert MessageOk(c, i, l[p]) && IsQuestion(l[p]);
    if |w.box| + 1 == |c.group[i]| {
      FullBox(c, w, i, l[p]);
      assert Without(l, p) == [];
    }
  }

  lemma AnswerRound(c: Config, w: Worker, l: seq<Message>, i: nat, p: nat, v: Worker)
    requires ValidConfig(c) && i < |c.group| && p < |l| && AllOk(c, i, l) && RoundOk(w, l, |c.group[i]|)
    requires !IsQuestion(l[p]) && BoxInRange(v.box) && (l[p].to == i ==> v == w)
    ensures var r := Handle(v, c.group[l[p].to], c.threshold, l[p]);
            && AllOk(c, i, Without(l, p) + r.1)
            && RoundOk(if l[p].to == i then r.0 else w, Without(l, p) + r.1, |c.group[i]|)
  {
    assert MessageOk(c, i, l[p]) && ValidGroup(c, c.group[i]);
    assert Without(l, p) == [];
  }

  /** What a message leaves of its search, at the asker's: its worker may have been the receiver. */
  lemma HandledRound(c: Config, w: Worker, l: seq<Message>, i: nat, p: nat, v: Worker)
    requires ValidConfig(c) && i < |c.group| && p < |l| && AllOk(c, i, l) && BoxOk(c, w.box)
    requires RoundOk(w, l, |c.group[i]|)
    requires BoxOk(c, v.box) && InRange(v.job) && (l[p].to == i ==> v == w) && BoxInRange(v.box)
    requires l[p].SendStatus? ==> InRange(l[p].meta)
    ensures var r := Handle(v, c.group[l[p].to], c.threshold, l[p]);
            && AllOk(c, i, Without(l, p) + r.1)
            && RoundOk(if l[p].to == i then r.0 else w, Without(l, p) + r.1, |c.group[i]|)
  {
    match l[p]
    case FindTask(_, _) => FindTaskRound(c, w, l, i, p, v);
    case SendStatus(_, _, _) => SendStatusRound(c, w, l, i, p);
    case _ => AnswerRound(c, w, l, i, p, v);
  }

  lemma FullBox(c: Config, w: Worker, i: nat, m: Message)
    requires ValidConfig(c) && i < |c.group| && MessageOk(c, i, m) && m.SendStatus? && BoxOk(c, w.box) && w.wait
    requires BoxInRange(w.box) && |w.box| + 1 == |c.group[i]|
    ensures var r := Handle(w, c.group[i], c.threshold, m);
            && AllOk(c, i, r.1) && RoundOk(r.0, r.1, |c.group[i]|)
  {
    var w' := w.(box := w.box + [m.meta.(thread := m.from)]);
    assert BoxOk(c, w'.box);
    var slowest := Slowest(w'.box);
    var k :| 0 <= k < |w'.box| && w'.box[k] == slowest;
    assert StatusOk(c, w'.box[k]);
  }

  /** What a message leaves of its receiver. */
  lemma HandledWorker(c: Config, w: Worker, i: nat, m: Message)
    requires ValidConfig(c) && i < |c.group| && MessageOk(c, i, m) && BoxOk(c, w.box) && BoxInRange(w.box)
             && InRange(w.job)
    ensures var r := Handle(w, c.group[m.to], c.threshold, m);
            && BoxOk(c, r.0.box) && InRange(r.0.job)
            && (m.to != i ==> r.0.wait == w.wait && r.0.box == w.box)
  {
  }

  lemma DeliverInv(c: Config, s: State, i: nat, p: nat, s': State)
    requires Inv(c, s) && Next(c, s, Deliver(i, p), s')
    ensures Inv(c, s')
  {
    var m := s.net[i][p];
    assert PlaceOk(c, s, i) && MessageOk(c, i, m);
    assert PlaceOk(c, s, m.to);
    HandledWorker(c, s.ws[m.to], i, m);
    HandledRound(c, s.ws[i], s.net[i], i, p, s.ws[m.to]);
    forall j: nat | j < |c.group| ensures PlaceOk(c, s', j) {
      assert PlaceOk(c, s, j);
    }
  }

  lemma CheckInv(c: Config, s: State, i: nat, s': State)
    requires Inv(c, s) && Next(c, s, Check(i), s')
    ensures Inv(c, s')
  {
    assert PlaceOk(c, s, i) && ValidGroup(c, c.group[i]);
    forall j: nat | j < |c.group| ensures PlaceOk(c, s', j) {
      assert PlaceOk(c, s, j);
    }
  }

  lemma AssignInv(c: Config, s: State, step: Step, s': State)
    requires Inv(c, s) && Next(c, s, step, s') && step.Assign?
    ensures Inv(c, s')
  {
    forall j: nat | j < |c.group| ensures PlaceOk(c, s', j) {
      assert PlaceOk(c, s, j);
    }
  }

  lemma NextInv(c: Config, s: State, step: Step, s': State)
    requires Inv(c, s) && Next(c, s, step, s')
    ensures Inv(c, s')
  {
    match step
    case Assign(_, _, _, _) => AssignInv(c, s, step, s');
    case Check(i) => CheckInv(c, s, i, s');
    case Deliver(i, p) => DeliverInv(c, s, i, p, s');
  }

  lemma InitInv(c: Config, s: State)
    requires ValidConfig(c) && Init(c, s)
    ensures Inv(c, s)
  {
    forall i: nat | i < |c.group| ensures PlaceOk(c, s, i) {
      assert Idle(s, i);
    }
  }

  lemma {:induction false} RunInv(c: Config, tr: seq<State>, steps: seq<Step>, n: nat)
    requires IsRun(c, tr, steps) && n < |tr|
    ensures Inv(c, tr[n])
  {
    if n == 0 {
      InitInv(c, tr[0]);
    } else {
      RunInv(c, tr, steps, n - 1);
      NextInv(c, tr[n - 1], steps[n - 1], tr[n]);
    }
  }

  /**
   * In every state of every run, whatever the order of deliveries: a worker that does not wait has no
   * message in flight and an empty box; one that waits is in exactly one round, and its round can go on.
   */
  lemma OneRoundAtATime(c: Config, tr: seq<State>, steps: seq<Step>, n: nat, i: nat)
    requires IsRun(c, tr, steps) && n < |tr| && i < |c.group|
    ensures var w, l := tr[n].ws[i], tr[n].net[i];
            if w.wait then Searching(w, l, |c.group[i]|) != Settling(w, l)
            else l == [] && w.box == []
    ensures tr[n].ws[i].wait && c.group[i] != [] ==> tr[n].net[i] != []
    ensures forall p :: 0 <= p < |tr[n].net[i]| ==> Deliverable(c, tr[n], tr[n].net[i][p])
  {
    var s := tr[n];
    RunInv(c, tr, steps, n);
    assert PlaceOk(c, s, i);
    forall p | 0 <= p < |s.net[i]| ensures Deliverable(c, s, s.net[i][p]) {
      assert MessageOk(c, i, s.net[i][p]);
      assert PlaceOk(c, s, s.net[i][p].to);
    }
  }

  /** One question of worker i to each member, in order, and nothing else. */
  ghost predicate AsksAll(l: seq<Message>, i: nat, group: seq<nat>) {
    |l| == |group| && forall k :: 0 <= k < |l| ==> l[k] == FindTask(i, group[k])
  }

  /** A step that ends worker i's waiting is a confirmation to it, with the interval asked for, or its last status. */
  ghost predicate EndsWait(c: Config, s: State, step: Step, s': State, i: nat)
    requires WellFormed(c, s) && WellFormed(c, s') && i < |c.group|
  {
    && step.Deliver? && step.i == i && step.p < |s.net[i]| && s'.net[i] == []
    && var w, w', m := s.ws[i], s'.ws[i], s.net[i][step.p];
       && m.to == i
       && if m.ConfirmHelp? then
            w'.job == w.job.(start := m.stolen.helperStart, cur := m.stolen.helperStart, batch := m.stolen.helperBatch)
          else
            m.SendStatus? && |w.box| + 1 == |c.group[i]| && w'.job == w.job
  }

  lemma WaitEnds(c: Config, s: State, step: Step, s': State, i: nat)
    requires Inv(c, s) && Next(c, s, step, s') && WellFormed(c, s') && i < |c.group| && s.ws[i].wait && !s'.ws[i].wait
    ensures EndsWait(c, s, step, s', i)
  {
    NextInv(c, s, step, s');
    assert PlaceOk(c, s', i);
    var l, m := s.net[step.i], s.net[step.i][step.p];
    assert PlaceOk(c, s, step.i) && MessageOk(c, step.i, m);
  }

  /** A refused worker asks all members again, and goes on waiting. */
  lemma RefusedAsksAgain(c: Config, s: State, i: nat, p: nat, s': State)
    requires Inv(c, s) && Next(c, s, Deliver(i, p), s') && WellFormed(c, s') && i < |c.group|
    requires s.net[i][p].CancelHelp?
    ensures s.net[i][p].to == i && s'.ws == s.ws && s.ws[i].wait && AsksAll(s'.net[i], i, c.group[i])
  {
    var l, m := s.net[i], s.net[i][p];
    assert PlaceOk(c, s, i) && MessageOk(c, i, m);
    assert !IsQuestion(m);
    assert Without(l, p) == [];
  }

  lemma WaitStarts(c: Config, s: State, step: Step, s': State, i: nat)
    requires Inv(c, s) && Next(c, s, step, s') && WellFormed(c, s') && i < |c.group|
    ensures !s.ws[i].wait && s'.ws[i].wait <==> step == Check(i) && IsFinished(s'.ws[i].job)
    ensures !s.ws[i].wait && s'.ws[i].wait ==> AsksAll(s'.net[i], i, c.group[i])
  {
    assert PlaceOk(c, s, i);
    match step
    case Assign(_, _, _, _) =>
    case Check(_) =>
    case Deliver(j, p) =>
      assert PlaceOk(c, s, j) && MessageOk(c, j, s.net[j][p]);
  }

  lemma IterationStays(c: Config, s: State, step: Step, s': State, i: nat)
    requires Inv(c, s) && Next(c, s, step, s') && WellFormed(c, s') && i < |c.group|
    ensures s'.ws[i].job.thread == s.ws[i].job.thread
    ensures s'.ws[i].job.iter != s.ws[i].job.iter ==> step.Assign? && step.i == i
  {
  }

  /**
   * In every run: a worker starts to wait exactly when it has finished its interval, and asks all members
   * then; it stops only for a confirmation or with its last status; and only a new batch changes its
   * iteration, and nothing its thread.
   */
  lemma WaitsForAnAnswer(c: Config, tr: seq<State>, steps: seq<Step>, n: nat, i: nat)
    requires IsRun(c, tr, steps) && n < |steps| && i < |c.group|
    ensures var w, w' := tr[n].ws[i], tr[n + 1].ws[i];
            && w'.job.thread == w.job.thread
            && (w'.job.iter != w.job.iter ==> steps[n].Assign? && steps[n].i == i)
            && (!w.wait && w'.wait <==> steps[n] == Check(i) && IsFinished(w'.job))
            && (!w.wait && w'.wait ==> AsksAll(tr[n + 1].net[i], i, c.group[i]))
            && (w.wait && !w'.wait ==> EndsWait(c, tr[n], steps[n], tr[n + 1], i))
  {
    var s, step, s' := tr[n], steps[n], tr[n + 1];
    RunInv(c, tr, steps, n);
    assert Next(c, s, step, s') && WellFormed(c, s');
    hide *;
    WaitStarts(c, s, step, s', i);
    IterationStays(c, s, step, s', i);
    if s.ws[i].wait && !s'.ws[i].wait {
      WaitEnds(c, s, step, s', i);
    }
  }

  // ---------------------------------------------------------------- conservation of work

  function In(k: nat, start: nat, size: nat): nat
  {
    if start <= k < start + size then 1 else 0
  }

  lemma {:induction false} IntervalCount(start: nat, size: nat, k: nat)
    ensures Interval(start, size)[k] == In(k, start, size)
  {
    if size == 0 {
    } else {
      IntervalCount(start, size - 1, k);
    }
  }

  /** Whether k is in what a worker has left. */
  function Left(w: Worker, k: nat): nat
  {
    if w.job.cur <= k < w.job.start + w.job.batch then 1 else 0
  }

  /** Whether k is in the interval a message brings to its receiver. */
  function Brings(m: Message, k: nat): nat
  {
    if m.ConfirmHelp? then In(k, m.stolen.helperStart, m.stolen.helperBatch) else 0
  }

  function LeftAll(ws: seq<Worker>, k: nat): nat
  {
    if ws == [] then 0 else LeftAll(ws[..|ws| - 1], k) + Left(ws[|ws| - 1], k)
  }

  function BroughtBy(l: seq<Message>, k: nat): nat
  {
    if l == [] then 0 else BroughtBy(l[..|l| - 1], k) + Brings(l[|l| - 1], k)
  }

  function BroughtByAll(net: seq<seq<Message>>, k: nat): nat
  {
    if net == [] then 0 else BroughtByAll(net[..|net| - 1], k) + BroughtBy(net[|net| - 1], k)
  }

  /** Every index handed out was worked on, is left to one worker, or is on its way to one. */
  ghost predicate Conserved(s: State, k: nat) {
    s.issued[k] == s.processed[k] + LeftAll(s.ws, k) + BroughtByAll(s.net, k)
  }

  ghost predicate AllConserved(s: State) {
    forall k: nat :: Conserved(s, k)
  }

  ghost predicate HelpAccepted(c: Config, s: State, step: Step)
    requires WellFormed(c, s)
  {
    && step.Deliver? && step.i < |s.net| && step.p < |s.net[step.i]|
    && var m := s.net[step.i][step.p];
       m.SendHelp? && m.to < |s.ws| && Accepts(s.ws[m.to].job, m.stolen)
  }

  /**
   * A help that is accepted finds its victim at the start of the status it was computed from: StealJob()
   * puts helperStart at that start plus helpeeBatch.
   */
  ghost predicate Timely(c: Config, s: State, step: Step)
    requires WellFormed(c, s)
  {
    HelpAccepted(c, s, step) ==>
      var m := s.net[step.i][step.p];
      s.ws[m.to].job.start + m.stolen.helpeeBatch == m.stolen.helperStart
  }

  ghost predicate WaitingFinished(s: State) {
    forall i :: 0 <= i < |s.ws| ==> (s.ws[i].wait ==> IsFinished(s.ws[i].job))
  }

  lemma {:induction false} LeftAllUpdate(ws: seq<Worker>, i: nat, w: Worker, k: nat)
    requires i < |ws|
    ensures LeftAll(ws[i := w], k) == LeftAll(ws, k) - Left(ws[i], k) + Left(w, k)
  {
    var n := |ws| - 1;
    if i == n {
      assert ws[i := w][..n] == ws[..n];
    } else {
      assert ws[i := w][..n] == ws[..n][i := w];
      LeftAllUpdate(ws[..n], i, w, k);
    }
  }

  lemma {:induction false} BroughtByAllUpdate(net: seq<seq<Message>>, i: nat, l: seq<Message>, k: nat)
    requires i < |net|
    ensures BroughtByAll(net[i := l], k) == BroughtByAll(net, k) - BroughtBy(net[i], k) + BroughtBy(l, k)
  {
    var n := |net| - 1;
    if i == n {
      assert net[i := l][..n] == net[..n];
    } else {
      assert net[i := l][..n] == net[..n][i := l];
      BroughtByAllUpdate(net[..n], i, l, k);
    }
  }

  lemma {:induction false} BroughtByConcat(a: seq<Message>, b: seq<Message>, k: nat)
    ensures BroughtBy(a + b, k) == BroughtBy(a, k) + BroughtBy(b, k)
  {
    if b == [] {
      assert a + b == a;
    } else {
      BroughtByConcat(a, b[..|b| - 1], k);
      assert (a + b)[..|a + b| - 1] == a + b[..|b| - 1];
    }
  }

  lemma BroughtByOne(m: Message, k: nat)
    ensures BroughtBy([m], k) == Brings(m, k)
  {
    assert [m][..0] == [];
  }

  lemma BroughtByWithout(l: seq<Message>, p: nat, out: seq<Message>, k: nat)
    requires p < |l|
    ensures BroughtBy(Without(l, p) + out, k) == BroughtBy(l, k) - Brings(l[p], k) + BroughtBy(out, k)
  {
    assert l == l[..p] + [l[p]] + l[p + 1..];
    BroughtByConcat(l[..p] + [l[p]], l[p + 1..], k);
    BroughtByConcat(l[..p], [l[p]], k);
    BroughtByOne(l[p], k);
    BroughtByConcat(l[..p], l[p + 1..], k);
    BroughtByConcat(Without(l, p), out, k);
  }

  lemma {:induction false} QuestionsBringNothing(l: seq<Message>, k: nat)
    requires AllQuestions(l)
    ensures BroughtBy(l, k) == 0
  {
    if l == [] {
    } else {
      assert IsQuestion(l[|l| - 1]);
      assert forall a :: 0 <= a < |l| - 1 ==> l[..|l| - 1][a] == l[a];
      QuestionsBringNothing(l[..|l| - 1], k);
    }
  }

  /** Whether handling m leaves what its receiver has and what is on its way together as it was. */
  ghost predicate Balanced(w: Worker, m: Message, w': Worker, out: seq<Message>, k: nat) {
    Left(w, k) + Brings(m, k) == Left(w', k) + BroughtBy(out, k)
  }

  lemma DeliverConserves(c: Config, s: State, i: nat, p: nat, s': State, k: nat)
    requires WellFormed(c, s) && Next(c, s, Deliver(i, p), s') && Conserved(s, k)
    ensures var m := s.net[i][p];
            var r := Handle(s.ws[m.to], c.group[m.to], c.threshold, m);
            Conserved(s', k) <==> Balanced(s.ws[m.to], m, r.0, r.1, k)
  {
    var m := s.net[i][p];
    var r := Handle(s.ws[m.to], c.group[m.to], c.threshold, m);
    LeftAllUpdate(s.ws, m.to, r.0, k);
    BroughtByWithout(s.net[i], p, r.1, k);
    BroughtByAllUpdate(s.net, i, Without(s.net[i], p) + r.1, k);
  }

  /** Apart from an accepted help, and a confirmation to a worker with something left, handling is balanced. */
  lemma OthersBalanced(w: Worker, group: seq<nat>, threshold: real, m: Message, k: nat)
    requires BoxInRange(w.box) && (m.SendStatus? ==> InRange(m.meta))
    requires m.SendHelp? ==> !Accepts(w.job, m.stolen)
    requires m.ConfirmHelp? ==> IsFinished(w.job)
    ensures var r := Handle(w, group, threshold, m); Balanced(w, m, r.0, r.1, k)
  {
    var out := Handle(w, group, threshold, m).1;
    if |out| == 1 {
      BroughtByOne(out[0], k);
    } else if m.CancelHelp? {
      QuestionsBringNothing(out, k);
    }
  }

  /** An accepted help is balanced for every index exactly when the victim's start is the one it was computed from. */
  lemma HelpBalancedExactlyWhen(w: Worker, group: seq<nat>, threshold: real, m: Message)
    requires BoxInRange(w.box) && InRange(w.job) && m.SendHelp? && Accepts(w.job, m.stolen)
    ensures var r := Handle(w, group, threshold, m);
            (forall k: nat :: Balanced(w, m, r.0, r.1, k)) <==>
              w.job.start + m.stolen.helpeeBatch == m.stolen.helperStart
  {
    var r := Handle(w, group, threshold, m);
    forall k: nat ensures BroughtBy(r.1, k) == In(k, m.stolen.helperStart, m.stolen.helperBatch) {
      BroughtByOne(r.1[0], k);
    }
    var h, end := w.job.start + m.stolen.helpeeBatch, w.job.start + w.job.batch;
    // an index the split counts twice or not at all
    var k: nat := if h < m.stolen.helperStart then h
                  else if h > end then end
                  else if w.job.cur < m.stolen.helperStart then m.stolen.helperStart else w.job.cur;
    if h != m.stolen.helperStart {
      assert !Balanced(w, m, r.0, r.1, k);
    }
  }

  lemma ConfirmFindsWaiting(c: Config, s: State, i: nat, p: nat)
    requires Inv(c, s) && i < |s.net| && p < |s.net[i]| && s.net[i][p].ConfirmHelp?
    ensures s.net[i][p].to == i && s.ws[i].wait && s.net[i] == [s.net[i][p]]
  {
    assert PlaceOk(c, s, i) && MessageOk(c, i, s.net[i][p]);
    assert !AllQuestions(s.net[i]) by {
      assert !IsQuestion(s.net[i][p]);
    }
  }

  /** A step conserves the work exactly when it is timely. */
  lemma StepConservesExactlyWhenTimely(c: Config, s: State, step: Step, s': State)
    requires Inv(c, s) && WaitingFinished(s) && AllConserved(s) && Next(c, s, step, s')
    ensures AllConserved(s') <==> Timely(c, s, step)
  {
    match step
    case Assign(i, _, _, _) =>
      forall k: nat ensures Conserved(s', k) { AssignConserves(c, s, step, s', k); }
    case Check(i) =>
      forall k: nat ensures Conserved(s', k) { CheckConserves(c, s, i, s', k); }
    case Deliver(i, p) =>
      DeliverConservesExactlyWhen(c, s, i, p, s');
  }

  lemma DeliverConservesExactlyWhen(c: Config, s: State, i: nat, p: nat, s': State)
    requires Inv(c, s) && WaitingFinished(s) && AllConserved(s) && Next(c, s, Deliver(i, p), s')
    ensures AllConserved(s') <==> Timely(c, s, Deliver(i, p))
  {
    var m := s.net[i][p];
    var r := Handle(s.ws[m.to], c.group[m.to], c.threshold, m);
    assert PlaceOk(c, s, m.to);
    forall k: nat ensures Conserved(s', k) <==> Balanced(s.ws[m.to], m, r.0, r.1, k) {
      assert Conserved(s, k);
      DeliverConserves(c, s, i, p, s', k);
    }
    if m.SendHelp? && Accepts(s.ws[m.to].job, m.stolen) {
      HelpBalancedExactlyWhen(s.ws[m.to], c.group[m.to], c.threshold, m);
    } else {
      if m.ConfirmHelp? {
        ConfirmFindsWaiting(c, s, i, p);
      }
      forall k: nat ensures Conserved(s', k) {
        OthersBalanced(s.ws[m.to], c.group[m.to], c.threshold, m, k);
      }
    }
  }

  lemma AssignConserves(c: Config, s: State, step: Step, s': State, k: nat)
    requires WellFormed(c, s) && Next(c, s, step, s') && step.Assign? && Conserved(s, k)
    ensures Conserved(s', k)
  {
    LeftAllUpdate(s.ws, step.i, s'.ws[step.i], k);
    IntervalCount(step.start, step.batch, k);
  }

  lemma CheckConserves(c: Config, s: State, i: nat, s': State, k: nat)
    requires Inv(c, s) && Next(c, s, Check(i), s') && Conserved(s, k)
    ensures Conserved(s', k)
  {
    var out := Checked(s.ws[i], i, c.group[i]).1;
    assert PlaceOk(c, s, i);
    LeftAllUpdate(s.ws, i, s'.ws[i], k);
    BroughtByConcat(s.net[i], out, k);
    QuestionsBringNothing(out, k);
    BroughtByAllUpdate(s.net, i, s.net[i] + out, k);
  }

  lemma TimelyKeepsFinished(c: Config, s: State, step: Step, s': State)
    requires Inv(c, s) && WaitingFinished(s) && Next(c, s, step, s') && Timely(c, s, step)
    ensures WaitingFinished(s')
  {
    if step.Deliver? {
      assert PlaceOk(c, s, s.net[step.i][step.p].to);
    }
  }

  ghost predicate TimelyRun(c: Config, tr: seq<State>, steps: seq<Step>, n: nat)
    requires IsRun(c, tr, steps) && n <= |steps|
  {
    forall k :: 0 <= k < n ==> Timely(c, tr[k], steps[k])
  }

  /**
   * Work conservation, up to any moment n of any run: every state so far accounts for each index as often
   * as it was handed out, exactly when every help accepted so far was timely.
   */
  lemma {:induction false} ConservedExactlyWhenTimely(c: Config, tr: seq<State>, steps: seq<Step>, n: nat)
    requires IsRun(c, tr, steps) && n < |tr|
    ensures (forall k :: 0 <= k <= n ==> AllConserved(tr[k])) <==> TimelyRun(c, tr, steps, n)
    ensures TimelyRun(c, tr, steps, n) ==> WaitingFinished(tr[n])
  {
    if n == 0 {
      InitConserved(c, tr[0]);
    } else {
      ConservedExactlyWhenTimely(c, tr, steps, n - 1);
      if TimelyRun(c, tr, steps, n - 1) {
        RunInv(c, tr, steps, n - 1);
        StepConservesExactlyWhenTimely(c, tr[n - 1], steps[n - 1], tr[n]);
        if Timely(c, tr[n - 1], steps[n - 1]) {
          TimelyKeepsFinished(c, tr[n - 1], steps[n - 1], tr[n]);
        }
      }
    }
  }

  lemma InitConserved(c: Config, s: State)
    requires Init(c, s)
    ensures AllConserved(s) && WaitingFinished(s)
  {
    AllIdle(c, s);
    forall k: nat ensures Conserved(s, k) {
      NoneHas(s.ws, k);
      NoneBrings(s.net, k);
    }
  }

  lemma AllIdle(c: Config, s: State)
    requires Init(c, s)
    ensures forall i :: 0 <= i < |s.ws| ==> IsFinished(s.ws[i].job)
    ensures forall i :: 0 <= i < |s.net| ==> s.net[i] == []
    ensures WaitingFinished(s)
  {
    forall i | 0 <= i < |c.group| ensures IsFinished(s.ws[i].job) && s.net[i] == [] && !s.ws[i].wait {
      assert Idle(s, i);
    }
  }

  lemma {:induction false} NoneHas(ws: seq<Worker>, k: nat)
    requires forall i :: 0 <= i < |ws| ==> Left(ws[i], k) == 0
    ensures LeftAll(ws, k) == 0
  {
    if ws == [] {
    } else {
      NoneHas(ws[..|ws| - 1], k);
    }
  }

  lemma {:induction false} NoneBrings(net: seq<seq<Message>>, k: nat)
    requires forall i :: 0 <= i < |net| ==> BroughtBy(net[i], k) == 0
    ensures BroughtByAll(net, k) == 0
  {
    if net == [] {
    } else {
      NoneBrings(net[..|net| - 1], k);
    }
  }

  /**
   * In every run a confirmation only ever reaches a worker that waits for it, with nothing else in flight for
   * its search.
   */
  lemma ConfirmedWhileWaiting(c: Config, tr: seq<State>, steps: seq<Step>, n: nat, i: nat, p: nat)
    requires IsRun(c, tr, steps) && n < |tr|
    requires i < |tr[n].net| && p < |tr[n].net[i]| && tr[n].net[i][p].ConfirmHelp?
    ensures tr[n].net[i][p].to == i && tr[n].ws[i].wait && tr[n].ws[i].box == [] && |tr[n].net[i]| == 1
  {
    RunInv(c, tr, steps, n);
    ConfirmFindsWaiting(c, tr[n], i, p);
    assert PlaceOk(c, tr[n], i);
  }

  /**
   * In a timely run it has nothing left that the confirmation could overwrite; LateHelpOverwritten is a run
   * that is not.
   */
  lemma NothingOverwritten(c: Config, tr: seq<State>, steps: seq<Step>, n: nat, i: nat, p: nat)
    requires IsRun(c, tr, steps) && n < |tr| && TimelyRun(c, tr, steps, n)
    requires i < |tr[n].net| && p < |tr[n].net[i]| && tr[n].net[i][p].ConfirmHelp?
    ensures IsFinished(tr[n].ws[i].job)
  {
    ConfirmedWhileWaiting(c, tr, steps, n, i, p);
    ConservedExactlyWhenTimely(c, tr, steps, n);
  }

  /** When a timely run comes to rest, exactly the indices handed out have been worked on, as often as handed out. */
  lemma AllDoneAtRest(c: Config, tr: seq<State>, steps: seq<Step>, n: nat)
    requires IsRun(c, tr, steps) && n < |tr| && TimelyRun(c, tr, steps, n)
    requires forall i :: 0 <= i < |tr[n].ws| ==> !tr[n].ws[i].wait && IsFinished(tr[n].ws[i].job)
    ensures tr[n].processed == tr[n].issued
  {
    var s := tr[n];
    RunInv(c, tr, steps, n);
    ConservedExactlyWhenTimely(c, tr, steps, n);
    forall i | 0 <= i < |s.net| ensures s.net[i] == [] {
      assert PlaceOk(c, s, i);
    }
    forall k: nat ensures s.processed[k] == s.issued[k] {
      assert Conserved(s, k);
      NoneHas(s.ws, k);
      NoneBrings(s.net, k);
    }
  }

  // ---------------------------------------------------------------- a help that comes too late

  /** Three nodes with one thread each: everybody asks both of the others, at the threshold the program starts with. */
  function Trio(): Config
  {
    Config([[1, 2], [0, 2], [0, 1]], 0.0)
  }

  ghost predicate ReachedBy(s: State, n: nat) {
    exists tr, steps :: IsRun(Trio(), tr, steps) && |steps| == n && tr[n] == s
  }

  lemma OneMore(s: State, n: nat, step: Step, s': State)
    requires ReachedBy(s, n) && |s.ws| == |s.net| == 3 && Next(Trio(), s, step, s') && |s'.ws| == |s'.net| == 3
    ensures ReachedBy(s', n + 1)
  {
    var tr, steps :| IsRun(Trio(), tr, steps) && |steps| == n && tr[n] == s;
    var tr', steps' := tr + [s'], steps + [step];
    forall k | 0 <= k < |steps'| ensures Next(Trio(), tr'[k], steps'[k], tr'[k + 1]) {
      if k < n {
        assert Next(Trio(), tr[k], steps[k], tr[k + 1]);
      }
    }
    assert IsRun(Trio(), tr', steps');
    assert tr'[n + 1] == s';
  }

  /** A job of the first iteration, at cur of the interval from start. */
  function Job(start: nat, batch: nat, cur: nat): JobMeta
  {
    JobMeta(0, start, batch, cur, 0)
  }

  function Busy(start: nat, batch: nat, cur: nat): Worker
  {
    Worker(Job(start, batch, cur), false, [])
  }

  /** A worker that has finished and waits. */
  function Asking(start: nat, batch: nat): Worker
  {
    Worker(Job(start, batch, start + batch), true, [])
  }

  const ISSUED: multiset<nat> := multiset{0, 1, 2, 3, 10, 20}

  function Snapshot(w0: Worker, w1: Worker, w2: Worker, l0: seq<Message>, l1: seq<Message>, l2: seq<Message>,
                    processed: multiset<nat>): State
  {
    State([w0, w1, w2], [l0, l1, l2], ISSUED, processed)
  }

  lemma Interval4()
    ensures Interval(0, 4) == multiset{0, 1, 2, 3} && Interval(10, 1) == multiset{10} && Interval(20, 1) == multiset{20}
  {
    assert Interval(0, 1) == multiset{0} && Interval(0, 2) == multiset{0, 1};
    assert Interval(0, 3) == multiset{0, 1, 2};
  }

  /** Worker i is given its batch. */
  lemma OneAssigned(s: State, n: nat, i: nat, start: nat, batch: nat, s': State)
    requires ReachedBy(s, n) && |s.ws| == |s.net| == 3 && i < 3
    requires s.ws[i] == Busy(0, 0, 0)
    requires s' == s.(ws := s.ws[i := Busy(start, batch, start)], issued := s.issued + Interval(start, batch))
    ensures ReachedBy(s', n + 1)
  {
    OneMore(s, n, Assign(i, 0, start, batch), s');
  }

  lemma AtFirst(s: State)
    requires Init(Trio(), s)
    ensures ReachedBy(s, 0)
  {
    assert IsRun(Trio(), [s], []) && [s][0] == s;
  }

  /** Each worker is given its batch: four indices to 0, one each to 1 and 2. */
  lemma BatchesAssigned()
    ensures ReachedBy(Snapshot(Busy(0, 4, 0), Busy(10, 1, 10), Busy(20, 1, 20), [], [], [], multiset{}), 3)
  {
    var idle := Busy(0, 0, 0);
    var none := [[], [], []];
    var s0 := State([idle, idle, idle], none, multiset{}, multiset{});
    var s1 := State([Busy(0, 4, 0), idle, idle], none, multiset{0, 1, 2, 3}, multiset{});
    var s2 := State([Busy(0, 4, 0), Busy(10, 1, 10), idle], none, multiset{0, 1, 2, 3, 10}, multiset{});
    var s3 := Snapshot(Busy(0, 4, 0), Busy(10, 1, 10), Busy(20, 1, 20), [], [], [], multiset{});
    Interval4();
    AtFirst(s0);
    OneAssigned(s0, 0, 0, 0, 4, s1);
    OneAssigned(s1, 1, 1, 10, 1, s2);
    OneAssigned(s2, 2, 2, 20, 1, s3);
  }

  /** Worker i works on one more index. */
  lemma OneChecked(s: State, n: nat, i: nat, w: Worker, out: seq<Message>, s': State)
    requires ReachedBy(s, n) && |s.ws| == |s.net| == 3 && i < 3
    requires !s.ws[i].wait && !IsFinished(s.ws[i].job) && s.net[i] == []
    requires Checked(s.ws[i], i, Trio().group[i]) == (w, out)
    requires s' == State(s.ws[i := w], s.net[i := out], s.issued, s.processed + multiset{s.ws[i].job.cur})
    ensures ReachedBy(s', n + 1)
  {
    assert s.net[i] + out == out;
    OneMore(s, n, Check(i), s');
  }

  /** A message of worker i's search is handled: the step, given what the handler does. */
  lemma OneHandled(s: State, n: nat, i: nat, p: nat, m: Message, w: Worker, out: seq<Message>, s': State)
    requires ReachedBy(s, n) && |s.ws| == |s.net| == 3 && i < 3 && m.to < 3
    requires p < |s.net[i]| && s.net[i][p] == m && Deliverable(Trio(), s, m)
    requires Handle(s.ws[m.to], Trio().group[m.to], 0.0, m) == (w, out)
    requires s' == s.(ws := s.ws[m.to := w], net := s.net[i := Without(s.net[i], p) + out])
    ensures ReachedBy(s', n + 1)
  {
    OneMore(s, n, Deliver(i, p), s');
  }

  /** The first one is. */
  lemma FirstHandled(s: State, n: nat, i: nat, m: Message, rest: seq<Message>, w: Worker, out: seq<Message>, s': State)
    requires ReachedBy(s, n) && |s.ws| == |s.net| == 3 && i < 3 && m.to < 3
    requires s.net[i] == [m] + rest && Deliverable(Trio(), s, m)
    requires Handle(s.ws[m.to], Trio().group[m.to], 0.0, m) == (w, out)
    requires s' == s.(ws := s.ws[m.to := w], net := s.net[i := rest + out])
    ensures ReachedBy(s', n + 1)
  {
    assert Without([m] + rest, 0) == rest;
    OneHandled(s, n, i, 0, m, w, out, s');
  }

  /** Worker i, which waits, has one question answered by worker a. */
  lemma OneAnswered(s: State, n: nat, i: nat, a: nat, rest: seq<Message>, s': State)
    requires ReachedBy(s, n) && |s.ws| == |s.net| == 3 && i < 3 && a < 3
    requires s.net[i] == [FindTask(i, a)] + rest && BoxInRange(s.ws[a].box)
    requires s' == s.(net := s.net[i := rest + [SendStatus(a, i, s.ws[a].job)]])
    ensures ReachedBy(s', n + 1)
  {
    assert s.ws[a := s.ws[a]] == s.ws;
    FirstHandled(s, n, i, FindTask(i, a), rest, s.ws[a], [SendStatus(a, i, s.ws[a].job)], s');
  }

  /** Of the statuses of a and b, worker i picks v's: the one with more left. */
  ghost predicate Picks(a: nat, ja: JobMeta, b: nat, jb: JobMeta, v: nat, j: StolenJob)
    requires InRange(ja) && InRange(jb)
  {
    var more := RapidReassignment.Left(ja) < RapidReassignment.Left(jb);
    v == (if more then b else a) && StealJob(if more then jb else ja, 0.0) == Some(j)
  }

  lemma Picked(w: Worker, i: nat, a: nat, ja: JobMeta, b: nat, jb: JobMeta, v: nat, j: StolenJob)
    requires InRange(ja) && InRange(jb) && ja.iter == jb.iter == w.job.iter && w.box == [] && Picks(a, ja, b, jb, v, j)
    ensures Decide(w.(box := [ja.(thread := a), jb.(thread := b)]), i, 0.0) == (w, [SendHelp(i, v, j)])
  {
    assert [ja.(thread := a), jb.(thread := b)][..1] == [ja.(thread := a)];
  }

  /** The first of two statuses reaches worker i. */
  lemma OneBoxed(s: State, n: nat, i: nat, a: nat, ja: JobMeta, rest: seq<Message>, s': State)
    requires ReachedBy(s, n) && |s.ws| == |s.net| == 3 && i < 3 && InRange(ja) && s.ws[i].box == []
    requires s.net[i] == [SendStatus(a, i, ja)] + rest
    requires s' == s.(ws := s.ws[i := s.ws[i].(box := [ja.(thread := a)])], net := s.net[i := rest])
    ensures ReachedBy(s', n + 1)
  {
    assert s.ws[i].box + [ja.(thread := a)] == [ja.(thread := a)] && rest + [] == rest;
    FirstHandled(s, n, i, SendStatus(a, i, ja), rest, s'.ws[i], [], s');
  }

  /** The second one does, and it asks for help. */
  lemma OneDecided(s: State, n: nat, i: nat, a: nat, ja: JobMeta, b: nat, jb: JobMeta, w: Worker, v: nat, j: StolenJob,
                   s': State)
    requires ReachedBy(s, n) && |s.ws| == |s.net| == 3 && i < 3 && Trio().group[i] == [a, b]
    requires InRange(ja) && InRange(jb) && ja.iter == jb.iter == w.job.iter && w.box == []
    requires s.ws[i] == w.(box := [ja.(thread := a)]) && s.net[i] == [SendStatus(b, i, jb)]
    requires Picks(a, ja, b, jb, v, j)
    requires s' == s.(ws := s.ws[i := w], net := s.net[i := [SendHelp(i, v, j)]])
    ensures ReachedBy(s', n + 1)
  {
    var help := SendHelp(i, v, j);
    Picked(w, i, a, ja, b, jb, v, j);
    assert s.ws[i].box + [jb.(thread := b)] == [ja.(thread := a), jb.(thread := b)];
    assert s.net[i] == [SendStatus(b, i, jb)] + [] && [] + [help] == [help];
    FirstHandled(s, n, i, SendStatus(b, i, jb), [], w, [help], s');
  }

  /** Both statuses reach worker i, which then asks for help. */
  lemma TwoBoxed(s: State, n: nat, i: nat, a: nat, ja: JobMeta, b: nat, jb: JobMeta, v: nat, j: StolenJob, s': State)
    requires ReachedBy(s, n) && |s.ws| == |s.net| == 3 && i < 3 && Trio().group[i] == [a, b]
    requires InRange(ja) && InRange(jb) && ja.iter == jb.iter == s.ws[i].job.iter && s.ws[i].box == []
    requires s.net[i] == [SendStatus(a, i, ja), SendStatus(b, i, jb)]
    requires Picks(a, ja, b, jb, v, j)
    requires s' == s.(net := s.net[i := [SendHelp(i, v, j)]])
    ensures ReachedBy(s', n + 2)
  {
    var w := s.ws[i];
    var mid := s.(ws := s.ws[i := w.(box := [ja.(thread := a)])], net := s.net[i := [SendStatus(b, i, jb)]]);
    assert s.net[i] == [SendStatus(a, i, ja)] + [SendStatus(b, i, jb)];
    OneBoxed(s, n, i, a, ja, [SendStatus(b, i, jb)], mid);
    assert mid.ws[i := w] == s.ws && mid.net[i := [SendHelp(i, v, j)]] == s'.net;
    OneDecided(mid, n + 1, i, a, ja, b, jb, w, v, j, s');
  }

  /** Both members answer worker i. */
  lemma TwoAnswered(s: State, n: nat, i: nat, a: nat, b: nat, s': State)
    requires ReachedBy(s, n) && |s.ws| == |s.net| == 3 && i < 3 && a < 3 && b < 3
    requires s.net[i] == [FindTask(i, a), FindTask(i, b)] && BoxInRange(s.ws[a].box) && BoxInRange(s.ws[b].box)
    requires s' == s.(net := s.net[i := [SendStatus(a, i, s.ws[a].job), SendStatus(b, i, s.ws[b].job)]])
    ensures ReachedBy(s', n + 2)
  {
    var ja, jb := s.ws[a].job, s.ws[b].job;
    var mid := s.(net := s.net[i := [FindTask(i, b)] + [SendStatus(a, i, ja)]]);
    assert s.net[i] == [FindTask(i, a)] + [FindTask(i, b)];
    OneAnswered(s, n, i, a, [FindTask(i, b)], mid);
    assert [SendStatus(a, i, ja)] + [SendStatus(b, i, jb)] == [SendStatus(a, i, ja), SendStatus(b, i, jb)];
    OneAnswered(mid, n + 1, i, b, [SendStatus(a, i, ja)], s');
  }

  /** Worker i works on its last index, asks both others, and sends its help. */
  lemma OneRound(s: State, n: nat, i: nat, a: nat, b: nat, w: Worker, v: nat, j: StolenJob, s': State)
    requires ReachedBy(s, n) && |s.ws| == |s.net| == 3 && i < 3 && Trio().group[i] == [a, b]
    requires a < 3 && b < 3 && a != i && b != i
    requires !s.ws[i].wait && !IsFinished(s.ws[i].job) && s.net[i] == [] && w.box == []
    requires BoxInRange(s.ws[a].box) && BoxInRange(s.ws[b].box)
    requires w.wait && Checked(s.ws[i], i, [a, b]) == (w, FindTasks(i, [a, b]))
    requires InRange(s.ws[a].job) && InRange(s.ws[b].job) && s.ws[a].job.iter == s.ws[b].job.iter == w.job.iter
    requires Picks(a, s.ws[a].job, b, s.ws[b].job, v, j)
    requires s' ==
               State(s.ws[i := w], s.net[i := [SendHelp(i, v, j)]], s.issued, s.processed + multiset{s.ws[i].job.cur})
    ensures ReachedBy(s', n + 5)
  {
    var ja, jb := s.ws[a].job, s.ws[b].job;
    var s1 := s'.(net := s.net[i := [FindTask(i, a), FindTask(i, b)]]);
    var s3 := s'.(net := s.net[i := [SendStatus(a, i, ja), SendStatus(b, i, jb)]]);
    assert FindTasks(i, [a, b]) == [FindTask(i, a), FindTask(i, b)];
    OneChecked(s, n, i, w, [FindTask(i, a), FindTask(i, b)], s1);
    TwoAnswered(s1, n + 1, i, a, b, s3);
    TwoBoxed(s3, n + 3, i, a, ja, b, jb, v, j, s');
  }

  /** A help is accepted, and its confirmation, if it is delivered, gives the asker its part. */
  lemma OneHelped(s: State, n: nat, i: nat, v: nat, j: StolenJob, w: Worker, s': State)
    requires ReachedBy(s, n) && |s.ws| == |s.net| == 3 && i < 3 && v < 3 && i != v
    requires s.net[i] == [SendHelp(i, v, j)] && s.ws[v].box == [] && Accepts(s.ws[v].job, j)
    requires w == s.ws[v].(job := s.ws[v].job.(batch := j.helpeeBatch))
    requires s' == s.(ws := s.ws[v := w], net := s.net[i := [ConfirmHelp(v, i, j)]])
    ensures ReachedBy(s', n + 1)
  {
    assert [SendHelp(i, v, j)] == [SendHelp(i, v, j)] + [] && [] + [ConfirmHelp(v, i, j)] == [ConfirmHelp(v, i, j)];
    FirstHandled(s, n, i, SendHelp(i, v, j), [], w, [ConfirmHelp(v, i, j)], s');
  }

  lemma OneConfirmed(s: State, n: nat, i: nat, v: nat, j: StolenJob, s': State)
    requires ReachedBy(s, n) && |s.ws| == |s.net| == 3 && i < 3 && v < 3
    requires s.net[i] == [ConfirmHelp(v, i, j)] && s.ws[i].box == [] && s.ws[i].job.iter == s.ws[i].job.thread == 0
    requires s' == s.(ws := s.ws[i := Busy(j.helperStart, j.helperBatch, j.helperStart)], net := s.net[i := []])
    ensures ReachedBy(s', n + 1)
  {
    assert [ConfirmHelp(v, i, j)] == [ConfirmHelp(v, i, j)] + [] && [] + [] == s'.net[i];
    FirstHandled(s, n, i, ConfirmHelp(v, i, j), [], Busy(j.helperStart, j.helperBatch, j.helperStart), [], s');
  }

  /** Worker 1 finishes, asks both others, and sends its help to 0: half of what 0 has left, [2, 4). */
  lemma FirstAsks()
    ensures ReachedBy(Snapshot(Busy(0, 4, 0), Asking(10, 1), Busy(20, 1, 20), [], [SendHelp(1, 0, StolenJob(2, 2, 2))],
                               [], multiset{10}), 8)
  {
    BatchesAssigned();
    var s := Snapshot(Busy(0, 4, 0), Busy(10, 1, 10), Busy(20, 1, 20), [], [], [], multiset{});
    var s' := Snapshot(Busy(0, 4, 0), Asking(10, 1), Busy(20, 1, 20), [], [SendHelp(1, 0, StolenJob(2, 2, 2))], [],
                       multiset{10});
    OneRound(s, 3, 1, 0, 2, Asking(10, 1), 0, StolenJob(2, 2, 2), s');
  }

  /** Worker 2 finishes and asks. */
  lemma SecondAsks()
    ensures ReachedBy(Snapshot(Busy(0, 4, 0), Asking(10, 1), Asking(20, 1), [], [SendHelp(1, 0, StolenJob(2, 2, 2))],
                               [FindTask(2, 0), FindTask(2, 1)], multiset{10, 20}), 9)
  {
    FirstAsks();
    var w0, w1 := Busy(0, 4, 0), Asking(10, 1);
    var help, out := [SendHelp(1, 0, StolenJob(2, 2, 2))], [FindTask(2, 0), FindTask(2, 1)];
    var s8 := Snapshot(w0, w1, Busy(20, 1, 20), [], help, [], multiset{10});
    var s9 := Snapshot(w0, w1, Asking(20, 1), [], help, out, multiset{10, 20});
    assert FindTasks(2, [0, 1]) == out;
    assert multiset{10} + multiset{20} == multiset{10, 20};
    OneChecked(s8, 8, 2, Asking(20, 1), out, s9);
  }

  /** Worker 2 with one answer: 0 was at the start of [0, 4). */
  function HalfAnswered(): Worker
  {
    Worker(Job(20, 1, 21), true, [Job(0, 4, 0)])
  }

  /** Its question to 1 is held back; 0 answers, and it gets the answer. */
  lemma SecondHears()
    ensures ReachedBy(Snapshot(Busy(0, 4, 0), Asking(10, 1), HalfAnswered(), [], [SendHelp(1, 0, StolenJob(2, 2, 2))],
                               [FindTask(2, 1)], multiset{10, 20}), 11)
  {
    SecondAsks();
    var w0, w1, w2 := Busy(0, 4, 0), Asking(10, 1), Asking(20, 1);
    var help, done := [SendHelp(1, 0, StolenJob(2, 2, 2))], multiset{10, 20};
    var f0, f1, st := FindTask(2, 0), FindTask(2, 1), SendStatus(0, 2, Job(0, 4, 0));
    var s9 := Snapshot(w0, w1, w2, [], help, [f0, f1], done);
    var s10 := Snapshot(w0, w1, w2, [], help, [f1, st], done);
    var s11 := Snapshot(w0, w1, HalfAnswered(), [], help, [f1], done);
    assert [f0, f1] == [f0] + [f1] && [f1] + [st] == [f1, st];
    OneAnswered(s9, 9, 2, 0, [f1], s10);
    assert Without([f1, st], 1) + [] == [f1] && w2.box + [Job(0, 4, 0)] == HalfAnswered().box;
    OneHandled(s10, 10, 2, 1, st, HalfAnswered(), [], s11);
  }

  /** Worker 0 works on index 0. */
  lemma VictimWorks()
    ensures ReachedBy(Snapshot(Busy(0, 4, 1), Asking(10, 1), HalfAnswered(), [], [SendHelp(1, 0, StolenJob(2, 2, 2))],
                               [FindTask(2, 1)], multiset{0, 10, 20}), 12)
  {
    SecondHears();
    var w1, w2, help := Asking(10, 1), HalfAnswered(), [SendHelp(1, 0, StolenJob(2, 2, 2))];
    var s11 := Snapshot(Busy(0, 4, 0), w1, w2, [], help, [FindTask(2, 1)], multiset{10, 20});
    var s12 := Snapshot(Busy(0, 4, 1), w1, w2, [], help, [FindTask(2, 1)], multiset{0, 10, 20});
    assert multiset{10, 20} + multiset{0} == multiset{0, 10, 20};
    OneChecked(s11, 11, 0, Busy(0, 4, 1), [], s12);
  }

  /** Worker 1 gets [2, 4). */
  lemma FirstHelps()
    ensures ReachedBy(Snapshot(Busy(0, 2, 1), Busy(2, 2, 2), HalfAnswered(), [], [], [FindTask(2, 1)],
                               multiset{0, 10, 20}), 14)
  {
    VictimWorks();
    var j, done := StolenJob(2, 2, 2), multiset{0, 10, 20};
    var s12 := Snapshot(Busy(0, 4, 1), Asking(10, 1), HalfAnswered(), [], [SendHelp(1, 0, j)], [FindTask(2, 1)], done);
    var s13 := Snapshot(Busy(0, 2, 1), Asking(10, 1), HalfAnswered(), [], [ConfirmHelp(0, 1, j)], [FindTask(2, 1)],
                        done);
    var s14 := Snapshot(Busy(0, 2, 1), Busy(2, 2, 2), HalfAnswered(), [], [], [FindTask(2, 1)], done);
    OneHelped(s12, 12, 1, 0, j, Busy(0, 2, 1), s13);
    OneConfirmed(s13, 13, 1, 0, j, s14);
  }

  /** Worker 0 works on index 1, asks both others, and sends its help to 1. */
  lemma VictimAsks()
    ensures ReachedBy(Snapshot(Asking(0, 2), Busy(2, 2, 2), HalfAnswered(), [SendHelp(0, 1, StolenJob(1, 3, 1))], [],
                               [FindTask(2, 1)], multiset{0, 1, 10, 20}), 19)
  {
    FirstHelps();
    var w1, w2, j := Busy(2, 2, 2), HalfAnswered(), StolenJob(1, 3, 1);
    var s14 := Snapshot(Busy(0, 2, 1), w1, w2, [], [], [FindTask(2, 1)], multiset{0, 10, 20});
    var s19 := Snapshot(Asking(0, 2), w1, w2, [SendHelp(0, 1, j)], [], [FindTask(2, 1)], multiset{0, 1, 10, 20});
    assert multiset{0, 10, 20} + multiset{1} == multiset{0, 1, 10, 20};
    OneRound(s14, 14, 0, 1, 2, Asking(0, 2), 1, j, s19);
  }

  /** It gets [3, 4) back: its interval ends at 4 again. */
  lemma StealsBack()
    ensures ReachedBy(Snapshot(Busy(3, 1, 3), Busy(2, 1, 2), HalfAnswered(), [], [], [FindTask(2, 1)],
                               multiset{0, 1, 10, 20}), 21)
  {
    VictimAsks();
    var w2, j, done := HalfAnswered(), StolenJob(1, 3, 1), multiset{0, 1, 10, 20};
    var s19 := Snapshot(Asking(0, 2), Busy(2, 2, 2), w2, [SendHelp(0, 1, j)], [], [FindTask(2, 1)], done);
    var s20 := Snapshot(Asking(0, 2), Busy(2, 1, 2), w2, [ConfirmHelp(1, 0, j)], [], [FindTask(2, 1)], done);
    var s21 := Snapshot(Busy(3, 1, 3), Busy(2, 1, 2), w2, [], [], [FindTask(2, 1)], done);
    OneHelped(s19, 19, 0, 1, j, Busy(2, 1, 2), s20);
    OneConfirmed(s20, 20, 0, 1, j, s21);
  }

  const DONE: multiset<nat> := multiset{0, 1, 3, 10, 20}

  /** It works on index 3, and asks again; what it is granted this time is the empty half of one index. */
  lemma AsksAgain()
    ensures ReachedBy(Snapshot(Asking(3, 1), Busy(2, 1, 2), HalfAnswered(), [ConfirmHelp(1, 0, StolenJob(0, 3, 1))], [],
                               [FindTask(2, 1)], DONE), 27)
  {
    StealsBack();
    var w1, w2, j := Busy(2, 1, 2), HalfAnswered(), StolenJob(0, 3, 1);
    var s21 := Snapshot(Busy(3, 1, 3), w1, w2, [], [], [FindTask(2, 1)], multiset{0, 1, 10, 20});
    var s26 := Snapshot(Asking(3, 1), w1, w2, [SendHelp(0, 1, j)], [], [FindTask(2, 1)], DONE);
    var s27 := Snapshot(Asking(3, 1), w1, w2, [ConfirmHelp(1, 0, j)], [], [FindTask(2, 1)], DONE);
    assert multiset{0, 1, 10, 20} + multiset{3} == DONE;
    OneRound(s21, 21, 0, 1, 2, Asking(3, 1), 1, j, s26);
    OneHelped(s26, 26, 0, 1, j, w1, s27);
  }

  /** Only now does worker 1 answer worker 2, which asks 0 for half of what that had left at first. */
  lemma SecondHelpIsLate()
    ensures ReachedBy(Snapshot(Asking(3, 1), Busy(2, 1, 2), Asking(20, 1), [ConfirmHelp(1, 0, StolenJob(0, 3, 1))], [],
                               [SendHelp(2, 0, StolenJob(2, 2, 2))], DONE), 29)
  {
    AsksAgain();
    var w0, w1, l0 := Asking(3, 1), Busy(2, 1, 2), [ConfirmHelp(1, 0, StolenJob(0, 3, 1))];
    var j0, j1 := Job(0, 4, 0), Job(2, 1, 2);
    var s27 := Snapshot(w0, w1, HalfAnswered(), l0, [], [FindTask(2, 1)], DONE);
    var s28 := Snapshot(w0, w1, HalfAnswered(), l0, [], [SendStatus(1, 2, j1)], DONE);
    var s29 := Snapshot(w0, w1, Asking(20, 1), l0, [], [SendHelp(2, 0, StolenJob(2, 2, 2))], DONE);
    assert [FindTask(2, 1)] == [FindTask(2, 1)] + [] && [] + [SendStatus(1, 2, j1)] == [SendStatus(1, 2, j1)];
    OneAnswered(s27, 27, 2, 1, [], s28);
    OneDecided(s28, 28, 2, 0, j0, 1, j1, Asking(20, 1), 0, StolenJob(2, 2, 2), s29);
  }

  /**
   * The handler compares only the ends of the intervals.  In this run of three nodes, with one batch a worker
   * and messages from one worker to another delivered in the order sent, the help of worker 2 arrives when
   * worker 0's interval ends at 4 again but starts at 3, and is accepted: index 3, already worked on, is on
   * its way to worker 2, and index 4, which was handed out to nobody, belongs to worker 0.  That one waits,
   * and a confirmation with a new interval is on its way to it.
   */
  lemma LateHelpAccepted()
    ensures var s := Snapshot(Worker(Job(3, 2, 4), true, []), Busy(2, 1, 2), Asking(20, 1),
                              [ConfirmHelp(1, 0, StolenJob(0, 3, 1))], [],
                              [ConfirmHelp(0, 2, StolenJob(2, 2, 2))], DONE);
            ReachedBy(s, 30) && !Conserved(s, 3) && !Conserved(s, 4) && s.ws[0].wait && !IsFinished(s.ws[0].job)
  {
    SecondHelpIsLate();
    var w1, w2, l0, j := Busy(2, 1, 2), Asking(20, 1), [ConfirmHelp(1, 0, StolenJob(0, 3, 1))], StolenJob(2, 2, 2);
    var w0 := Worker(Job(3, 2, 4), true, []);
    var s29 := Snapshot(Asking(3, 1), w1, w2, l0, [], [SendHelp(2, 0, j)], DONE);
    var s30 := Snapshot(w0, w1, w2, l0, [], [ConfirmHelp(0, 2, j)], DONE);
    OneHelped(s29, 29, 2, 0, j, w0, s30);
    AtLeast(s30.ws, 0, 4);
    BroughtByOne(s30.net[2][0], 3);
    AtLeastBrought(s30.net, 2, 3);
  }

  /** Its confirmation overwrites what it has left: index 4 belonged to worker 0, and now to nobody. */
  lemma LateHelpOverwritten()
    ensures var s := Snapshot(Busy(3, 0, 3), Busy(2, 1, 2), Asking(20, 1), [], [],
                              [ConfirmHelp(0, 2, StolenJob(2, 2, 2))], DONE);
            ReachedBy(s, 31) && LeftAll(s.ws, 4) == BroughtByAll(s.net, 4) == 0
  {
    LateHelpAccepted();
    var w1, w2, l2 := Busy(2, 1, 2), Asking(20, 1), [ConfirmHelp(0, 2, StolenJob(2, 2, 2))];
    var s30 := Snapshot(Worker(Job(3, 2, 4), true, []), w1, w2, [ConfirmHelp(1, 0, StolenJob(0, 3, 1))], [], l2, DONE);
    var s31 := Snapshot(Busy(3, 0, 3), w1, w2, [], [], l2, DONE);
    OneConfirmed(s30, 30, 0, 1, StolenJob(0, 3, 1), s31);
    NoneHas(s31.ws, 4);
    NoneBrings(s31.net, 4);
  }

  lemma {:induction false} AtLeast(ws: seq<Worker>, i: nat, k: nat)
    requires i < |ws|
    ensures LeftAll(ws, k) >= Left(ws[i], k)
  {
    if i == |ws| - 1 {
    } else {
      AtLeast(ws[..|ws| - 1], i, k);
    }
  }

  lemma {:induction false} AtLeastBrought(net: seq<seq<Message>>, i: nat, k: nat)
    requires i < |net|
    ensures BroughtByAll(net, k) >= BroughtBy(net[i], k)
  {
    if i == |net| - 1 {
    } else {
      AtLeastBrought(net[..|net| - 1], i, k);
    }
  }
}
