/**
 * Work stealing between the workers of an iteration, examples/rapid_reassignment: the code of one worker.
 * A worker that has finished its interval of indices asks the members of its group for their status
 * (FindTask, SendStatus), picks the one with most left, and asks that one for half of it (SendHelp),
 * which is granted (ConfirmHelp) or refused (CancelHelp).
 */
module RapidReassignment {
  import opened Basics

  /** The job of a worker: it works on the indices from start up to start + batch, and is at cur. */
  datatype JobMeta = JobMeta(iter: nat, start: nat, batch: nat, cur: nat, thread: nat)

  datatype StolenJob = StolenJob(helperBatch: nat, helperStart: nat, helpeeBatch: nat)

  datatype Message =
    | FindTask(from: nat, to: nat)
    | SendStatus(from: nat, to: nat, meta: JobMeta)
    | SendHelp(from: nat, to: nat, stolen: StolenJob)
    | ConfirmHelp(from: nat, to: nat, stolen: StolenJob)
    | CancelHelp(from: nat, to: nat)

  /** What the handlers of one local thread work on: its job manager and its status box. */
  datatype Worker = Worker(job: JobMeta, wait: bool, box: seq<JobMeta>)

  predicate InRange(m: JobMeta) {
    m.start <= m.cur <= m.start + m.batch
  }

  predicate IsFinished(m: JobMeta) {
    m.cur == m.start + m.batch
  }

  function Left(m: JobMeta): int
  {
    m.batch - (m.cur - m.start)
  }

  // ---------------------------------------------------------------- splitting an interval, choosing a victim

  /** StealJob() with its percentage of one half; the rest of the victim's interval is cut in two. */
  function StealJob(m: JobMeta, threshold: real): (r: Option<StolenJob>)
    requires InRange(m)
    ensures r.None? <==> Left(m) == 0 || (m.cur - m.start) as real > threshold
    ensures r.Some? ==>
              var j := r.value;
              && m.start + j.helpeeBatch == j.helperStart && j.helperStart + j.helperBatch == m.start + m.batch
              && m.cur < j.helperStart
              && 0 <= (j.helperStart - m.cur) - j.helperBatch <= 1
  {
    if m.cur == m.start + m.batch then None
    else if (m.cur - m.start) as real > threshold then None
    else
      var helperBatch := (m.batch - (m.cur - m.start)) / 2;
      Some(StolenJob(helperBatch, m.start + m.batch - helperBatch, m.batch - helperBatch))
  }

  function Slowest(metas: seq<JobMeta>): (m: JobMeta)
    requires metas != []
    ensures m in metas
  {
    var last := metas[|metas| - 1];
    if |metas| == 1 then last
    else
      var slowest := Slowest(metas[..|metas| - 1]);
      if Left(slowest) < Left(last) then last else slowest
  }

  /** The slowest worker is the first of those with most left. */
  lemma {:induction false} SlowestIsFirstWithMostLeft(metas: seq<JobMeta>) returns (j: nat)
    requires metas != []
    ensures j < |metas| && metas[j] == Slowest(metas)
    ensures forall i :: 0 <= i < |metas| ==> Left(metas[i]) <= Left(metas[j])
    ensures forall i :: 0 <= i < j ==> Left(metas[i]) < Left(metas[j])
  {
    var n := |metas| - 1;
    if n == 0 {
      j := 0;
    } else {
      j := SlowestIsFirstWithMostLeft(metas[..n]);
      if Left(metas[j]) < Left(metas[n]) {
        j := n;
      }
    }
  }

  method CalSlowestWorker(metas: seq<JobMeta>) returns (slowest: JobMeta)
    requires metas != []
    ensures slowest == Slowest(metas)
  {
    var j := 0;
    var i := 0;
    while i < |metas|
      invariant 0 <= i <= |metas| && 0 <= j < |metas|
      invariant i == 0 ==> j == 0
      invariant i > 0 ==> metas[j] == Slowest(metas[..i])
    {
      assert metas[..i + 1][..i] == metas[..i];
      if Left(metas[j]) < Left(metas[i]) {
        j := i;
      }
      i := i + 1;
    }
    assert metas[..i] == metas;
    slowest := metas[j];
  }

  predicate IsInSameIteration(job: JobMeta, slowest: JobMeta) {
    !(job.iter < slowest.iter)
  }

  // ---------------------------------------------------------------- what each handler does

  function FindTasks(me: nat, group: seq<nat>): (ms: seq<Message>)
    ensures |ms| == |group| && forall k :: 0 <= k < |ms| ==> ms[k] == FindTask(me, group[k])
  {
    seq(|group|, (k: nat) requires k < |group| => FindTask(me, group[k]))
  }

  function Accepts(job: JobMeta, j: StolenJob): bool
  {
    job.cur < job.start + j.helpeeBatch && job.start + job.batch == j.helperStart + j.helperBatch
  }

  ghost predicate BoxInRange(box: seq<JobMeta>) {
    forall k :: 0 <= k < |box| ==> InRange(box[k])
  }

  /** The decision once all statuses are there; with none to rob, the worker stops waiting. */
  function Decide(w: Worker, me: nat, threshold: real): (r: (Worker, seq<Message>))
    requires w.box != [] && BoxInRange(w.box)
  {
    var slowest := Slowest(w.box);
    if IsInSameIteration(w.job, slowest) then
      match StealJob(slowest, threshold)
      case Some(j) => (w.(box := []), [SendHelp(me, slowest.thread, j)])
      case None => (w.(box := [], wait := false), [])
    else
      (w.(box := [], wait := false), [])
  }

  /**
   * The worker asks the first of those with most left for the back half of that, exactly when that one is
   * not in a later iteration, has something left and has not gone past the threshold; else it goes on.
   */
  lemma HelpGoesToTheSlowest(w: Worker, me: nat, threshold: real) returns (j: nat)
    requires w.box != [] && BoxInRange(w.box)
    ensures j < |w.box|
    ensures forall i :: 0 <= i < |w.box| ==> Left(w.box[i]) <= Left(w.box[j])
    ensures forall i :: 0 <= i < j ==> Left(w.box[i]) < Left(w.box[j])
    ensures var (w', out) := Decide(w, me, threshold);
            var v := w.box[j];
            && w'.box == [] && w'.job == w.job
            && if w.job.iter >= v.iter && Left(v) > 0 && (v.cur - v.start) as real <= threshold then
                 && w'.wait == w.wait && |out| == 1 && out[0].SendHelp? && out[0].from == me && out[0].to == v.thread
                 && v.start + out[0].stolen.helpeeBatch == out[0].stolen.helperStart
                 && out[0].stolen.helperStart + out[0].stolen.helperBatch == v.start + v.batch
                 && 0 <= (out[0].stolen.helperStart - v.cur) - out[0].stolen.helperBatch <= 1
               else
                 !w'.wait && out == []
  {
    j := SlowestIsFirstWithMostLeft(w.box);
    assert InRange(w.box[j]);
  }

  /** The receiver's new state, and what it sends. */
  function Handle(w: Worker, group: seq<nat>, threshold: real, m: Message): (r: (Worker, seq<Message>))
    requires BoxInRange(w.box) && (m.SendStatus? ==> InRange(m.meta))
  {
    match m
    case FindTask(from, to) => (w, [SendStatus(to, from, w.job)])
    case SendStatus(from, to, meta) =>
      var w' := w.(box := w.box + [meta.(thread := from)]);
      if |w'.box| == |group| then Decide(w', to, threshold) else (w', [])
    case SendHelp(from, to, j) =>
      if Accepts(w.job, j) then (w.(job := w.job.(batch := j.helpeeBatch)), [ConfirmHelp(to, from, j)])
      else (w, [CancelHelp(to, from)])
    case ConfirmHelp(_, _, j) =>
      (w.(job := w.job.(start := j.helperStart, cur := j.helperStart, batch := j.helperBatch), wait := false), [])
    case CancelHelp(_, to) => (w, FindTasks(to, group))
  }

  /** Check() after the index at cur has been worked on. */
  function Checked(w: Worker, me: nat, group: seq<nat>): (Worker, seq<Message>)
  {
    var job := w.job.(cur := w.job.cur + 1);
    if IsFinished(job) then (w.(job := job, wait := true), FindTasks(me, group)) else (w.(job := job), [])
  }

  // ---------------------------------------------------------------- the classes

  class SendQueue {
    var messages: seq<Message>

    constructor ()
      ensures messages == []
    {
      messages := [];
    }

    method Push(m: Message)
      modifies this
      ensures messages == old(messages) + [m]
    {
      messages := messages + [m];
    }
  }

  class StatusBox {
    const size: nat
    var jobMetas: seq<JobMeta>

    constructor (size: nat)
      ensures this.size == size && jobMetas == []
    {
      this.size, jobMetas := size, [];
    }

    method AddStatus(m: JobMeta)
      modifies this
      ensures jobMetas == old(jobMetas) + [m]
    {
      jobMetas := jobMetas + [m];
    }

    function IsFull(): bool
      reads this
    {
      size == |jobMetas|
    }

    method Clear()
      modifies this
      ensures jobMetas == []
    {
      jobMetas := [];
    }
  }

  /** The job manager, with doReassgn on. */
  class JobManager {
    const queue: SendQueue
    const myId: nat
    const members: seq<nat>
    var jobMeta: JobMeta
    var wait: bool

    constructor (queue: SendQueue, myId: nat, members: seq<nat>)
      ensures this.queue == queue && this.myId == myId && this.members == members
      ensures jobMeta == JobMeta(0, 0, 0, 0, 0) && !wait
    {
      this.queue, this.myId, this.members := queue, myId, members;
      jobMeta, wait := JobMeta(0, 0, 0, 0, 0), false;
    }

    method UpdateIteration(iter: nat)
      modifies this`jobMeta
      ensures jobMeta == old(jobMeta).(iter := iter)
    {
      jobMeta := jobMeta.(iter := iter);
    }

    method UpdateStartPt(start: nat)
      modifies this`jobMeta
      ensures jobMeta == old(jobMeta).(start := start, cur := start)
    {
      jobMeta := jobMeta.(start := start);
      jobMeta := jobMeta.(cur := start);
    }

    method UpdateBatchSize(batch: nat)
      modifies this`jobMeta
      ensures jobMeta == old(jobMeta).(batch := batch)
    {
      jobMeta := jobMeta.(batch := batch);
    }

    method SetWait(isWait: bool)
      modifies this`wait
      ensures wait == isWait
    {
      wait := isWait;
    }

    /** One FindTask to every member. */
    method FindHelpers()
      modifies queue
      ensures queue.messages == old(queue.messages) + FindTasks(myId, members)
      ensures forall k :: 0 <= k < |members| ==> queue.messages[|old(queue.messages)| + k] == FindTask(myId, members[k])
    {
      var i := 0;
      while i < |members|
        invariant 0 <= i <= |members|
        invariant queue.messages == old(queue.messages) + FindTasks(myId, members)[..i]
      {
        queue.Push(FindTask(myId, members[i]));
        i := i + 1;
      }
      assert FindTasks(myId, members)[..i] == FindTasks(myId, members);
    }

    /** Check() up to the point where it blocks on wait. */
    method Check(ghost box: seq<JobMeta>)
      modifies this`jobMeta, this`wait, queue
      ensures Worker(jobMeta, wait, box) == old(Checked(Worker(jobMeta, wait, box), myId, members).0)
      ensures queue.messages == old(queue.messages + Checked(Worker(jobMeta, wait, box), myId, members).1)
    {
      jobMeta := jobMeta.(cur := jobMeta.cur + 1);
      if IsFinished(jobMeta) {
        FindHelpers();
        wait := true;
      }
    }
  }

  /** The message loop of one local thread. */
  class GetLoop {
    const manager: JobManager
    const box: StatusBox
    const queue: SendQueue
    const threshold: real

    ghost predicate Valid()
      reads this, box
    {
      manager.queue == queue && box.size == |manager.members| && BoxInRange(box.jobMetas)
    }

    ghost function State(): Worker
      reads this, manager, box
    {
      Worker(manager.jobMeta, manager.wait, box.jobMetas)
    }

    constructor (queue: SendQueue, myId: nat, members: seq<nat>, threshold: real)
      ensures Valid() && this.queue == queue && this.threshold == threshold
      ensures fresh(manager) && fresh(box) && manager.myId == myId && manager.members == members
      ensures State() == Worker(JobMeta(0, 0, 0, 0, 0), false, [])
    {
      this.queue, this.threshold := queue, threshold;
      manager := new JobManager(queue, myId, members);
      box := new StatusBox(|members|);
    }

    /** The branches of the message switch for the five kinds of message. */
    method Receive(m: Message)
      requires Valid() && m.to == manager.myId && (m.SendStatus? ==> InRange(m.meta))
      modifies manager`jobMeta, manager`wait, box, queue
      ensures Valid()
      ensures State() == old(Handle(State(), manager.members, threshold, m).0)
      ensures queue.messages == old(queue.messages + Handle(State(), manager.members, threshold, m).1)
    {
      match m
      case FindTask(from, to) =>
        queue.Push(SendStatus(to, from, manager.jobMeta));
      case SendStatus(from, to, meta) =>
        var jobMeta := meta.(thread := from);
        box.AddStatus(jobMeta);
        if box.IsFull() {
          Choose();
          box.Clear();
        }
      case SendHelp(from, to, stolen) =>
        var jobMeta := manager.jobMeta;
        if jobMeta.cur < jobMeta.start + stolen.helpeeBatch &&
           jobMeta.start + jobMeta.batch == stolen.helperStart + stolen.helperBatch {
          manager.UpdateBatchSize(stolen.helpeeBatch);
          queue.Push(ConfirmHelp(to, from, stolen));
        } else {
          queue.Push(CancelHelp(to, from));
        }
      case ConfirmHelp(_, _, stolen) =>
        manager.UpdateStartPt(stolen.helperStart);
        manager.UpdateBatchSize(stolen.helperBatch);
        manager.SetWait(false);
      case CancelHelp(_, to) =>
        manager.FindHelpers();
    }

    /** The part of the SendStatus branch for a full box. */
    method Choose()
      requires Valid() && box.jobMetas != []
      modifies manager`wait, queue
      ensures State().(box := []) == old(Decide(State(), manager.myId, threshold).0)
      ensures queue.messages == old(queue.messages + Decide(State(), manager.myId, threshold).1)
    {
      var slowest := CalSlowestWorker(box.jobMetas);
      if IsInSameIteration(manager.jobMeta, slowest) {
        var stolen := StealJob(slowest, threshold);
        if stolen.Some? {
          queue.Push(SendHelp(manager.myId, slowest.thread, stolen.value));
        } else {
          manager.SetWait(false);
        }
      } else {
        manager.SetWait(false);
      }
    }
  }
}
