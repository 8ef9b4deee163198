/** The clocks of the workers as a server knows them, with their minimum kept incrementally. */
module ProgressTracker {
  import opened Basics

  datatype Tracker = Tracker(progress: map<nat, nat>, minClock: nat)

  function Fresh(tids: seq<nat>): Tracker
  {
    Tracker(map tid | tid in tids :: 0, 0)
  }

  predicate UniqueMin(t: Tracker, tid: nat)
    requires tid in t.progress
  {
    && t.progress[tid] == t.minClock
    && forall other :: other in t.progress && other != tid ==> t.progress[other] != t.minClock
  }

  /** One more Clock from tid; the new minimum if this changed it. */
  function Advance(t: Tracker, tid: nat): (Tracker, Option<nat>)
    requires tid in t.progress
  {
    var progress := t.progress[tid := t.progress[tid] + 1];
    if UniqueMin(t, tid) then
      (Tracker(progress, t.minClock + 1), Some(t.minClock + 1))
    else
      (Tracker(progress, t.minClock), None)
  }

  /** min_clock_ is the least progress. */
  ghost predicate MinIsLeast(t: Tracker) {
    && (forall tid :: tid in t.progress ==> t.minClock <= t.progress[tid])
    && (t.progress != map[] ==> exists tid :: tid in t.progress && t.progress[tid] == t.minClock)
  }

  lemma FreshMin(tids: seq<nat>)
    ensures MinIsLeast(Fresh(tids))
  {
    var t := Fresh(tids);
    if t.progress != map[] {
      var tid :| tid in t.progress;
    }
  }

  /** Advancing keeps the minimum least, and reports it exactly when it changed. */
  lemma AdvanceMin(t: Tracker, tid: nat)
    requires MinIsLeast(t) && tid in t.progress
    ensures var (t', m) := Advance(t, tid);
            && MinIsLeast(t')
            && t'.progress == t.progress[tid := t.progress[tid] + 1]
            && (m.Some? <==> t'.minClock != t.minClock)
            && (m.Some? ==> m.value == t'.minClock == t.minClock + 1)
  {
    var (t', m) := Advance(t, tid);
    if UniqueMin(t, tid) {
      assert t'.progress[tid] == t'.minClock;
    } else if t.progress[tid] == t.minClock {
      var other :| other in t.progress && other != tid && t.progress[other] == t.minClock;
      assert t'.progress[other] == t'.minClock;
    } else {
      var least :| least in t.progress && t.progress[least] == t.minClock;
      assert t'.progress[least] == t'.minClock;
    }
  }

  /** The workers among tids that are at the minimum. */
  ghost function Mins(t: Tracker, tids: set<nat>): set<nat>
  {
    set tid | tid in tids && tid in t.progress && t.progress[tid] == t.minClock
  }

  class ProgressTracker {
    var progresses: map<nat, nat>
    var minClock: nat

    ghost function State(): Tracker
      reads this
    {
      Tracker(progresses, minClock)
    }

    constructor ()
      ensures State() == Tracker(map[], 0)
    {
      progresses, minClock := map[], 0;
    }

    method Init(tids: seq<nat>)
      modifies this
      ensures State() == Fresh(tids)
    {
      progresses := map[];
      var k := 0;
      while k < |tids|
        invariant k <= |tids|
        invariant progresses == map tid | tid in tids[..k] :: 0
      {
        assert tids[..k + 1] == tids[..k] + [tids[k]];
        progresses := progresses[tids[k] := 0];
        k := k + 1;
      }
      assert tids[..k] == tids;
      minClock := 0;
    }

    /** The counting loop of IsUniqueMin, which stops at the second minimum. */
    method IsUniqueMin(tid: nat) returns (unique: bool)
      requires tid in progresses
      ensures unique <==> UniqueMin(State(), tid)
    {
      if progresses[tid] != minClock {
        return false;
      }
      var minCount, rest := 0, progresses.Keys;
      ghost var seen: set<nat> := {};
      while rest != {}
        invariant seen + rest == progresses.Keys && seen !! rest
        invariant minCount == |Mins(State(), seen)| <= 1
        decreases rest
      {
        var k :| k in rest;
        OneMore(State(), seen, k);
        rest, seen := rest - {k}, seen + {k};
        if progresses[k] == minClock {
          minCount := minCount + 1;
        }
        if minCount > 1 {
          CountDecides(State(), seen, tid);
          return false;
        }
      }
      CountDecides(State(), seen, tid);
      return true;
    }

    method AdvanceAndGetChangedMinClock(tid: nat) returns (changed: Option<nat>)
      requires tid in progresses
      modifies this
      ensures (State(), changed) == Advance(old(State()), tid)
    {
      var unique := IsUniqueMin(tid);
      if unique {
        minClock := minClock + 1;
        progresses := progresses[tid := progresses[tid] + 1];
        changed := Some(minClock);
      } else {
        progresses := progresses[tid := progresses[tid] + 1];
        changed := None;
      }
    }
  }

  lemma OneMore(t: Tracker, seen: set<nat>, k: nat)
    requires k !in seen && k in t.progress
    ensures |Mins(t, seen + {k})| == |Mins(t, seen)| + if t.progress[k] == t.minClock then 1 else 0
  {
    if t.progress[k] == t.minClock {
      assert Mins(t, seen + {k}) == Mins(t, seen) + {k};
    } else {
      assert Mins(t, seen + {k}) == Mins(t, seen);
    }
  }

  /** Two minima among the workers seen refute uniqueness; at most one among all of them proves it. */
  lemma CountDecides(t: Tracker, seen: set<nat>, tid: nat)
    requires tid in t.progress && t.progress[tid] == t.minClock && seen <= t.progress.Keys
    ensures |Mins(t, seen)| > 1 ==> !UniqueMin(t, tid)
    ensures |Mins(t, seen)| <= 1 && seen == t.progress.Keys ==> UniqueMin(t, tid)
  {
    var mins := Mins(t, seen);
    if |mins| > 1 {
      assert |mins - {tid}| >= 1;
      var other :| other in mins - {tid};
    } else if seen == t.progress.Keys {
      assert |mins - {tid}| == 0;
      forall other | other in t.progress && other != tid ensures t.progress[other] != t.minClock {
        assert other !in mins - {tid};
      }
    }
  }
}
