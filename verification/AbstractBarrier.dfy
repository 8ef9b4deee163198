/**
 * What a cluster barrier promises, with nothing said about messages: a node may leave its
 * barrier only when every node has entered the same barrier.  Both mailboxes refine this.
 */
module AbstractBarrier {

  /** round[i] is the number of barriers node i has left; inside[i] says whether it is in the next one. */
  datatype State = State(round: seq<nat>, inside: seq<bool>)

  datatype Step = Enter(i: nat) | Leave(i: nat) | Stutter

  ghost predicate WellFormed(s: State, n: nat) {
    |s.round| == n && |s.inside| == n
  }

  ghost predicate Init(s: State, n: nat) {
    && WellFormed(s, n)
    && forall i :: 0 <= i < n ==> s.round[i] == 0 && !s.inside[i]
  }

  /** Node j has entered barrier v (barriers are counted from 0). */
  ghost predicate HasEntered(s: State, j: nat, v: nat)
    requires j < |s.round| == |s.inside|
  {
    s.round[j] > v || (s.round[j] == v && s.inside[j])
  }

  ghost predicate Next(s: State, step: Step, t: State)
    requires |s.round| == |s.inside|
  {
    match step
    case Stutter => t == s
    case Enter(i) =>
      && i < |s.round|
      && !s.inside[i]
      && t == s.(inside := s.inside[i := true])
    case Leave(i) =>
      && i < |s.round|
      && s.inside[i]
      && (forall j: nat :: j < |s.round| ==> HasEntered(s, j, s.round[i]))
      && t == State(s.round[i := s.round[i] + 1], s.inside[i := false])
  }

  /** Every barrier a node has left, every node has entered. */
  ghost predicate Inv(s: State) {
    && |s.round| == |s.inside|
    && forall i: nat, j: nat, v: nat :: i < |s.round| && j < |s.round| && v < s.round[i] ==> HasEntered(s, j, v)
  }

  lemma InitInv(s: State, n: nat)
    requires Init(s, n)
    ensures Inv(s)
  {
  }

  lemma NextInv(s: State, step: Step, t: State)
    requires Inv(s) && Next(s, step, t)
    ensures Inv(t)
  {
    forall i: nat, j: nat, v: nat | i < |t.round| && j < |t.round| && v < t.round[i]
      ensures HasEntered(t, j, v)
    {
      assert HasEntered(s, j, v);
    }
  }

  /** Any two nodes' rounds differ by at most one. */
  lemma RoundsClose(s: State, i: nat, j: nat)
    requires Inv(s) && i < |s.round| && j < |s.round|
    ensures s.round[i] <= s.round[j] + 1
    ensures s.round[i] == s.round[j] + 1 ==> s.inside[j]
  {
    if s.round[i] > s.round[j] {
      assert HasEntered(s, j, s.round[i] - 1);
    }
  }
}
