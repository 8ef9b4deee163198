/**
 * The Adds as the workers issue them, against the slices of them that travel on the links: what a server
 * has summed up for a key of its own is what the whole Adds add to that key.
 */
module IssuedAdds {
  import opened Basics
  import opened Requests
  import WL = WorkerLinks

  /** What server j gets of an Add. */
  function SliceOf(c: WL.Config, a: AddReq, j: nat): AddReq
  {
    a.(kvs := WL.SlicePairs(c, a.kvs, j))
  }

  /** The slices of Adds for server j, in order, without the empty ones. */
  function SlicesFor(c: WL.Config, adds: seq<AddReq>, j: nat): seq<AddReq>
  {
    if adds == [] then []
    else
      var slice := SliceOf(c, adds[|adds| - 1], j);
      SlicesFor(c, adds[..|adds| - 1], j) + if slice.kvs == [] then [] else [slice]
  }

  lemma {:induction false} InSlices(c: WL.Config, adds: seq<AddReq>, j: nat, s: AddReq)
    ensures s in SlicesFor(c, adds, j) <==> s.kvs != [] && exists i :: 0 <= i < |adds| && s == SliceOf(c, adds[i], j)
  {
    if adds == [] {
    } else {
      InSlices(c, adds[..|adds| - 1], j, s);
    }
  }

  /** Slicing loses nothing of what a server's own keys are to get. */
  lemma {:induction false} SliceDelta(c: WL.Config, kvs: seq<(Key, int)>, k: Key)
    ensures Delta(WL.SlicePairs(c, kvs, c.owner(k)), k) == Delta(kvs, k)
  {
    if kvs == [] {
    } else {
      var front, last := kvs[..|kvs| - 1], kvs[|kvs| - 1];
      SliceDelta(c, front, k);
      var s := WL.SlicePairs(c, front, c.owner(k));
      assert (s + [last])[..|s|] == s;
      assert s + [] == s;
    }
  }

  lemma {:induction false} SlicesTotal(c: WL.Config, adds: seq<AddReq>, k: Key)
    ensures Total(SlicesFor(c, adds, c.owner(k)), k) == Total(adds, k)
  {
    if adds == [] {
    } else {
      var front, last := adds[..|adds| - 1], adds[|adds| - 1];
      var slices, slice := SlicesFor(c, front, c.owner(k)), SliceOf(c, last, c.owner(k));
      SlicesTotal(c, front, k);
      SliceDelta(c, last.kvs, k);
      TotalSnoc(slices, slice, k);
      assert slices + [] == slices;
    }
  }

  /** A key of the request is in the slice for its server. */
  lemma {:induction false} KeyInSlice(c: WL.Config, keys: seq<Key>, i: nat)
    requires i < |keys|
    ensures keys[i] in WL.SliceKeys(c, keys, c.owner(keys[i]))
  {
    if i == |keys| - 1 {
    } else {
      KeyInSlice(c, keys[..|keys| - 1], i);
    }
  }

  /** Once every server has answered its slice of a Get, there is what it returns. */
  lemma Gatherable(c: WL.Config, replies: nat -> seq<Reply>, g: GetReq) returns (vals: seq<int>)
    requires forall j: nat :: j < c.servers ==> WL.SliceAnswered(c, replies(j), g, j)
    requires forall j: nat, k: nat :: j < c.servers && k < |replies(j)| ==>
               |replies(j)[k].vals| == |replies(j)[k].req.keys|
    ensures WL.Gathered(c, replies, g, vals)
  {
    vals := GatherFirst(c, replies, g, |g.keys|);
  }

  lemma {:induction false} GatherFirst(c: WL.Config, replies: nat -> seq<Reply>, g: GetReq, n: nat)
    returns (vals: seq<int>)
    requires n <= |g.keys|
    requires forall j: nat :: j < c.servers ==> WL.SliceAnswered(c, replies(j), g, j)
    requires forall j: nat, k: nat :: j < c.servers && k < |replies(j)| ==>
               |replies(j)[k].vals| == |replies(j)[k].req.keys|
    ensures |vals| == n
    ensures forall i: nat :: i < n && c.owner(g.keys[i]) < c.servers ==>
              var j := c.owner(g.keys[i]);
              WL.RepliedWith(replies(j), g.(keys := WL.SliceKeys(c, g.keys, j)), g.keys[i], vals[i])
  {
    if n == 0 {
      vals := [];
    } else {
      vals := GatherFirst(c, replies, g, n - 1);
      var j, v := c.owner(g.keys[n - 1]), 0;
      if j < c.servers {
        v := GatherOne(c, replies, g, n - 1);
      }
      vals := vals + [v];
    }
  }

  lemma GatherOne(c: WL.Config, replies: nat -> seq<Reply>, g: GetReq, i: nat) returns (v: int)
    requires i < |g.keys| && c.owner(g.keys[i]) < c.servers
    requires WL.SliceAnswered(c, replies(c.owner(g.keys[i])), g, c.owner(g.keys[i]))
    requires forall k: nat :: k < |replies(c.owner(g.keys[i]))| ==>
               |replies(c.owner(g.keys[i]))[k].vals| == |replies(c.owner(g.keys[i]))[k].req.keys|
    ensures var j := c.owner(g.keys[i]);
            WL.RepliedWith(replies(j), g.(keys := WL.SliceKeys(c, g.keys, j)), g.keys[i], v)
  {
    var j := c.owner(g.keys[i]);
    var req := g.(keys := WL.SliceKeys(c, g.keys, j));
    KeyInSlice(c, g.keys, i);
    var k: nat :| k < |replies(j)| && replies(j)[k].req == req;
    var p: nat :| p < |req.keys| && req.keys[p] == g.keys[i];
    v := replies(j)[k].vals[p];
  }

  // ---------------------------------------------------------------- choosing among Adds

  /** A worker's Adds are numbered in the order they are issued. */
  ghost predicate Numbered(adds: seq<AddReq>) {
    forall i, k :: 0 <= i < k < |adds| && adds[i].worker == adds[k].worker ==> adds[i].no < adds[k].no
  }

  /** The Adds that satisfy p. */
  function Select(adds: seq<AddReq>, p: AddReq -> bool): seq<AddReq>
  {
    if adds == [] then []
    else Select(adds[..|adds| - 1], p) + if p(adds[|adds| - 1]) then [adds[|adds| - 1]] else []
  }

  lemma {:induction false} InSelected(adds: seq<AddReq>, p: AddReq -> bool, a: AddReq)
    ensures a in Select(adds, p) <==> a in adds && p(a)
  {
    if adds == [] {
    } else {
      InSelected(adds[..|adds| - 1], p, a);
      assert adds == adds[..|adds| - 1] + [adds[|adds| - 1]];
    }
  }

  lemma {:induction false} SelectedNumbered(adds: seq<AddReq>, p: AddReq -> bool)
    requires Numbered(adds)
    ensures Numbered(Select(adds, p))
  {
    if adds == [] {
    } else {
      var front, last := adds[..|adds| - 1], adds[|adds| - 1];
      SelectedNumbered(front, p);
      forall a | a in Select(front, p) && a.worker == last.worker ensures a.no < last.no {
        InSelected(front, p, a);
      }
    }
  }

  /** An Add appears once among numbered ones. */
  lemma {:induction false} NumberedOnce(adds: seq<AddReq>, a: AddReq)
    requires Numbered(adds)
    ensures multiset(adds)[a] == if a in adds then 1 else 0
  {
    if adds == [] {
    } else {
      var front, last := adds[..|adds| - 1], adds[|adds| - 1];
      NumberedOnce(front, a);
      assert adds == front + [last];
      assert last !in front;
    }
  }

  lemma {:induction false} SlicesNumbered(c: WL.Config, adds: seq<AddReq>, j: nat)
    requires Numbered(adds)
    ensures Numbered(SlicesFor(c, adds, j))
  {
    if adds == [] {
    } else {
      var front, last := adds[..|adds| - 1], adds[|adds| - 1];
      SlicesNumbered(c, front, j);
      forall s | s in SlicesFor(c, front, j) && s.worker == last.worker ensures s.no < last.no {
        InSlices(c, front, j, s);
      }
    }
  }

  lemma TotalWithout(adds: seq<AddReq>, i: nat, k: Key)
    requires i < |adds|
    ensures Total(adds, k) == Total(adds[..i] + adds[i + 1..], k) + Delta(adds[i].kvs, k)
  {
    var a, b := adds[..i], adds[i + 1..];
    assert adds == (a + [adds[i]]) + b;
    TotalConcat(a + [adds[i]], b, k);
    TotalSnoc(a, adds[i], k);
    TotalConcat(a, b, k);
  }

  /** The order of Adds does not matter for their total. */
  lemma {:induction false} TotalOfMultiset(a: seq<AddReq>, b: seq<AddReq>, k: Key)
    requires multiset(a) == multiset(b)
    ensures Total(a, k) == Total(b, k)
  {
    if a == [] {
      assert |multiset(b)| == 0;
    } else {
      var i := FirstFound(a, b);
      TotalOfMultiset(a[1..], b[..i] + b[i + 1..], k);
      TotalWithout(a, 0, k);
      assert a[..0] + a[1..] == a[1..];
      TotalWithout(b, i, k);
    }
  }

  /**
   * A list that has the slices of some Adds, each once, adds up to what the Adds themselves add to the
   * server's keys.
   */
  lemma SameTotal(c: WL.Config, adds: seq<AddReq>, slices: seq<AddReq>, k: Key)
    requires Numbered(adds)
    requires forall s :: multiset(slices)[s] == if s in SlicesFor(c, adds, c.owner(k)) then 1 else 0
    ensures Total(slices, k) == Total(adds, k)
  {
    var all := SlicesFor(c, adds, c.owner(k));
    SlicesNumbered(c, adds, c.owner(k));
    forall s ensures multiset(all)[s] == multiset(slices)[s] {
      NumberedOnce(all, s);
    }
    TotalOfMultiset(all, slices, k);
    SlicesTotal(c, adds, k);
  }

  /** The slices of chosen Adds, when the choice can be told from the slice. */
  lemma SlicesOfSelected(c: WL.Config, adds: seq<AddReq>, p: AddReq -> bool, j: nat, q: AddReq -> bool, s: AddReq)
    requires forall a :: a in adds && SliceOf(c, a, j).kvs != [] ==> p(a) == q(SliceOf(c, a, j))
    ensures s in SlicesFor(c, Select(adds, p), j) <==> s in SlicesFor(c, adds, j) && q(s)
  {
    InSlices(c, adds, j, s);
    InSlices(c, Select(adds, p), j, s);
    if s in SlicesFor(c, adds, j) && q(s) {
      var i :| 0 <= i < |adds| && s == SliceOf(c, adds[i], j);
      InSelected(adds, p, adds[i]);
      var i' :| 0 <= i' < |Select(adds, p)| && Select(adds, p)[i'] == adds[i];
    }
    if s in SlicesFor(c, Select(adds, p), j) {
      var i :| 0 <= i < |Select(adds, p)| && s == SliceOf(c, Select(adds, p)[i], j);
      InSelected(adds, p, Select(adds, p)[i]);
      var i' :| 0 <= i' < |adds| && adds[i'] == Select(adds, p)[i];
    }
  }

  // ---------------------------------------------------------------- what the links carry

  /** The Adds on the link from w to j are the non-empty slices for j of the Adds w has issued. */
  ghost predicate LinkCarries(c: WL.Config, net: WL.Net, w: nat, j: nat)
    requires WL.WellFormed(c, net) && w < c.workers && j < c.servers
  {
    forall s :: AddMsg(s) in net.sent[w][j] <==> s.worker == w && s in SlicesFor(c, net.issued, j)
  }

  ghost predicate Inv(c: WL.Config, net: WL.Net) {
    && WL.WellFormed(c, net)
    && Numbered(net.issued)
    && (forall a :: a in net.issued ==> a.worker < c.workers && a.no < net.worker[a.worker].no)
    && (forall w: nat, j: nat :: w < c.workers && j < c.servers ==> LinkCarries(c, net, w, j))
  }

  lemma InitInv(c: WL.Config, net: WL.Net)
    requires WL.Init(c, net)
    ensures Inv(c, net)
  {
  }

  lemma NextInv(c: WL.Config, net: WL.Net, step: WL.Step, net': WL.Net)
    requires Inv(c, net) && WL.WellFormed(c, net') && WL.Next(c, net, step, net')
    ensures Inv(c, net')
  {
    forall w: nat, j: nat | w < c.workers && j < c.servers ensures LinkCarries(c, net', w, j) {
      assert LinkCarries(c, net, w, j);
      if step.IssueAdd? {
        IssueCarries(c, net, step.w, step.kvs, net', w, j);
      }
    }
  }

  lemma IssueCarries(c: WL.Config, net: WL.Net, v: nat, kvs: seq<(Key, int)>, net': WL.Net, w: nat, j: nat)
    requires WL.WellFormed(c, net) && WL.WellFormed(c, net') && WL.Next(c, net, WL.IssueAdd(v, kvs), net')
    requires w < c.workers && j < c.servers && LinkCarries(c, net, w, j)
    ensures LinkCarries(c, net', w, j)
  {
    var a := AddReq(v, net.worker[v].clock, net.worker[v].no, kvs);
    assert net'.issued[..|net'.issued| - 1] == net.issued;
    assert net'.sent[w][j] ==
             if w == v then net.sent[w][j] + WL.AddSlice(c, w, net.worker[w], kvs, j) else net.sent[w][j];
  }

  lemma RunStep(c: WL.Config, nets: seq<WL.Net>, steps: seq<WL.Step>, k: nat)
    requires WL.IsRun(c, nets, steps) && k + 1 < |nets|
    ensures k < |steps| && WL.WellFormed(c, nets[k]) && WL.WellFormed(c, nets[k + 1])
    ensures WL.Next(c, nets[k], steps[k], nets[k + 1])
  {
  }

  lemma {:induction false} RunInv(c: WL.Config, nets: seq<WL.Net>, steps: seq<WL.Step>, n: nat)
    requires WL.IsRun(c, nets, steps) && n < |nets| && WL.Init(c, nets[0])
    ensures Inv(c, nets[n])
  {
    hide WL.IsRun, WL.Init, WL.Next, WL.WellFormed, Inv;
    if n == 0 {
      InitInv(c, nets[0]);
    } else {
      RunStep(c, nets, steps, n - 1);
      RunInv(c, nets, steps, n - 1);
      NextInv(c, nets[n - 1], steps[n - 1], nets[n]);
    }
  }
}
