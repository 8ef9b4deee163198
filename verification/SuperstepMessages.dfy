/** The superstep exchange: what pushing, sending, draining and delivering keep. */
module SuperstepMessages {
  import opened Superstep
  import VB = VersionedBarrier

  // ---------------------------------------------------------------- steps that send

  /** What a state must agree on with the one before for a link nobody touched to stay in order. */
  lemma LinkFrame(c: Config, s: State, s': State, i: nat, j: nat)
    requires WellFormed(c, s) && WellFormed(c, s') && i < c.n && j < c.n && LinkOk(c, s, i, j)
    requires s'.link[i][j] == s.link[i][j] && s'.box[i].progress >= s.box[i].progress
    requires forall m :: m in s.link[i][j] && m.Data? && m.dst < |s.th| ==>
               Expected(s'.th[m.dst]) == Expected(s.th[m.dst])
    requires forall v: nat :: VB.Delivered(Proj(c, s'), c.n, i, j, v) ==> VB.Delivered(Proj(c, s), c.n, i, j, v)
    ensures LinkOk(c, s', i, j)
  {
    var l := s'.link[i][j];
    forall k: nat | k < |l| && l[k].Data? ensures InTransit(c, s', i, j, l[k]) {
      assert InTransit(c, s, i, j, l[k]);
      assert l[k] in s.link[i][j];
    }
  }

  /** The waiting of the threads is untouched when none of its variables changed. */
  lemma LocalsFrame(c: Config, s: State, s': State)
    requires WellFormed(c, s) && WellFormed(c, s') && Locals(c, s)
    requires s'.chan == s.chan && s'.built == s.built
    requires forall i :: 0 <= i < c.n ==>
               s'.box[i].progress == s.box[i].progress && s'.phase[i].Inside? == s.phase[i].Inside?
    requires forall t :: 0 <= t < |s.th| ==>
               var a, b := s.th[t], s'.th[t];
               a.left == b.left && a.arrived == b.arrived && a.gen == b.gen
                 && (b.drained ==> a.drained || a.left % 2 == 1)
    ensures Locals(c, s')
  {
    forall i: nat | i < c.n ensures NodeOk(c, s', i) {
      assert NodeOk(c, s, i);
      assert Missing(c, s', i) == Missing(c, s, i);
    }
    forall t: nat | t < |s'.th| ensures PlaceOk(c, s', t) {
      assert PlaceOk(c, s, t);
    }
  }

  lemma BoxesFrame(s: State, s': State)
    requires Boxes(s) && s'.th == s.th
    ensures Boxes(s')
  {
    forall t: nat | t < |s'.th| ensures BoxesOk(s', t) {
      assert BoxesOk(s, t);
    }
  }

  lemma PushInv(c: Config, s: State, t: nat, u: nat, x: int, s': State)
    requires Inv(c, s) && Next(c, s, Push(t, u, x), s')
    ensures Inv(c, s') && Proj(c, s') == Proj(c, s)
  {
    var i, j, m := c.node[t], c.node[u], Data(t, u, s.th[t].left / 2, x);
    VersionsSnoc(s.link[i][j], m);
    PutVersions(s.link, i, j, s.link[i][j] + [m]);
    assert Net(s.link)[i][j] == Versions(s.link[i][j] + [m]);
    PutBack(Net(s.link), i, j);
    LocalsFrame(c, s, s');
    BoxesFrame(s, s');
    PushLinks(c, s, t, u, x, s');
    PushConserved(c, s, t, u, x, s');
  }

  lemma PushConserved(c: Config, s: State, t: nat, u: nat, x: int, s': State)
    requires WellFormed(c, s) && WellFormed(c, s') && Conservation(c, s) && Next(c, s, Push(t, u, x), s')
    ensures Conservation(c, s')
  {
    forall m ensures Conserved(c, s', m) {
      assert Conserved(c, s, m);
    }
  }

  lemma PushLinks(c: Config, s: State, t: nat, u: nat, x: int, s': State)
    requires Inv(c, s) && Next(c, s, Push(t, u, x), s') && WellFormed(c, s') && Proj(c, s') == Proj(c, s)
    ensures Links(c, s')
  {
    PushRound(c, s, t, u);
    forall i: nat, j: nat | i < c.n && j < c.n ensures LinkOk(c, s', i, j) {
      assert LinkOk(c, s, i, j);
      if i == c.node[t] && j == c.node[u] {
        PushedLinkOk(c, s, t, u, x, s');
      } else {
        LinkFrame(c, s, s', i, j);
      }
    }
  }

  lemma PushedLinkOk(c: Config, s: State, t: nat, u: nat, x: int, s': State)
    requires WellFormed(c, s) && VB.Inv(Proj(c, s), c.n)
    requires Next(c, s, Push(t, u, x), s') && WellFormed(c, s') && Proj(c, s') == Proj(c, s)
    requires LinkOk(c, s, c.node[t], c.node[u])
    requires Expected(s.th[u]) == s.th[t].left / 2
    requires s.box[c.node[t]].progress == s.th[t].left + 1 && s.phase[c.node[t]].Outside?
    ensures LinkOk(c, s', c.node[t], c.node[u])
  {
    var i, j := c.node[t], c.node[u];
    var l, l' := s.link[i][j], s'.link[i][j];
    forall k: nat | k < |l'| && l'[k].Data? ensures InTransit(c, s', i, j, l'[k]) {
      if k < |l| {
        assert InTransit(c, s, i, j, l[k]);
      }
    }
    forall k: nat | k < |l| && l[k].Barrier? ensures l[k].version <= s.th[t].left {
      VersionsIn(l, l[k].version);
      assert Proj(c, s).net[i][j] == Versions(l);
      assert VB.HasSent(Proj(c, s), c.n, i, j, l[k].version);
    }
  }

  lemma SendBarrierInv(c: Config, s: State, i: nat, s': State)
    requires Inv(c, s) && Next(c, s, SendBarrier(i), s')
    ensures Inv(c, s') && VB.Next(Proj(c, s), c.n, VB.Send(i), Proj(c, s'))
  {
    SendBarrierProj(c, s, i, s');
    VB.NextInv(Proj(c, s), c.n, VB.Send(i), Proj(c, s'));
    LocalsFrame(c, s, s');
    BoxesFrame(s, s');
    SendBarrierLinks(c, s, i, s');
    forall m' ensures Conserved(c, s', m') {
      assert Conserved(c, s, m');
    }
  }

  lemma SendBarrierProj(c: Config, s: State, i: nat, s': State)
    requires WellFormed(c, s) && Next(c, s, SendBarrier(i), s')
    ensures WellFormed(c, s') && VB.Next(Proj(c, s), c.n, VB.Send(i), Proj(c, s'))
  {
    var k, m := s.phase[i].sent, Barrier(s.box[i].progress);
    VersionsSnoc(s.link[i][k], m);
    PutVersions(s.link, i, k, s.link[i][k] + [m]);
  }

  /** A barrier message at the end of a link comes after all of its data. */
  lemma BarrierAppended(c: Config, s: State, s': State, i: nat, j: nat)
    requires WellFormed(c, s) && WellFormed(c, s') && i < c.n && j < c.n && LinkOk(c, s, i, j)
    requires exists v: nat :: s'.link[i][j] == s.link[i][j] + [Barrier(v)]
    requires s'.th == s.th && s'.box == s.box
    requires forall v: nat :: VB.Delivered(Proj(c, s'), c.n, i, j, v) ==> VB.Delivered(Proj(c, s), c.n, i, j, v)
    ensures LinkOk(c, s', i, j)
  {
    var l, l' := s.link[i][j], s'.link[i][j];
    forall a: nat | a < |l'| && l'[a].Data? ensures a < |l| && l'[a] == l[a] && InTransit(c, s', i, j, l'[a]) {
      assert InTransit(c, s, i, j, l[a]);
    }
  }

  lemma SendBarrierLinks(c: Config, s: State, i: nat, s': State)
    requires WellFormed(c, s) && Links(c, s) && Next(c, s, SendBarrier(i), s') && WellFormed(c, s')
    requires VB.NetInv(Proj(c, s), c.n) && VB.Next(Proj(c, s), c.n, VB.Send(i), Proj(c, s'))
    ensures Links(c, s')
  {
    VB.SendDelivers(Proj(c, s), c.n, i, Proj(c, s'));
    forall i': nat, j': nat | i' < c.n && j' < c.n ensures LinkOk(c, s', i', j') {
      assert LinkOk(c, s, i', j');
      if i' == i && j' == s.phase[i].sent {
        BarrierAppended(c, s, s', i, j');
      } else {
        LinkFrame(c, s, s', i', j');
      }
    }
  }

  // ---------------------------------------------------------------- draining

  /** Links nobody touched, with every thread expecting what it expected before. */
  lemma LinksFrame(c: Config, s: State, s': State)
    requires WellFormed(c, s) && WellFormed(c, s') && Links(c, s) && s'.link == s.link
    requires forall t :: 0 <= t < |s.th| ==> Expected(s'.th[t]) == Expected(s.th[t])
    requires forall i :: 0 <= i < c.n ==> s'.box[i].progress >= s.box[i].progress
    requires forall i: nat, j: nat, v: nat :: i < c.n && j < c.n ==>
               (VB.Delivered(Proj(c, s'), c.n, i, j, v) <==> VB.Delivered(Proj(c, s), c.n, i, j, v))
    ensures Links(c, s')
  {
    forall i: nat, j: nat | i < c.n && j < c.n ensures LinkOk(c, s', i, j) {
      assert LinkOk(c, s, i, j);
      LinkFrame(c, s, s', i, j);
    }
  }

  lemma DrainInv(c: Config, s: State, t: nat, step: Step, s': State)
    requires Inv(c, s) && Next(c, s, step, s') && (step == DrainOne(t) || step == DrainEnd(t))
    ensures Inv(c, s') && Proj(c, s') == Proj(c, s)
  {
    LocalsFrame(c, s, s');
    LinksFrame(c, s, s');
    var th := s.th[t];
    assert BoxesOk(s, t);
    if step.DrainOne? {
      assert th.queue == [th.queue[0]] + th.queue[1..];
    }
    forall u: nat | u < |s'.th| ensures BoxesOk(s', u) {
      assert BoxesOk(s, u);
    }
    DrainConserved(c, s, t, step, s');
  }

  lemma DrainConserved(c: Config, s: State, t: nat, step: Step, s': State)
    requires WellFormed(c, s) && WellFormed(c, s') && Boxes(s) && Conservation(c, s)
    requires Next(c, s, step, s') && (step == DrainOne(t) || step == DrainEnd(t))
    ensures Conservation(c, s')
  {
    var th := s.th[t];
    assert BoxesOk(s, t);
    if step.DrainOne? {
      assert th.queue == [th.queue[0]] + th.queue[1..];
    }
    forall m ensures Conserved(c, s', m) {
      assert Conserved(c, s, m);
    }
  }

  // ---------------------------------------------------------------- deliveries

  lemma DeliverDataInv(c: Config, s: State, i: nat, j: nat, s': State)
    requires Inv(c, s) && Next(c, s, Deliver(i, j), s') && s.link[i][j][0].Data?
    ensures Inv(c, s') && Proj(c, s') == Proj(c, s)
  {
    DeliverNet(s.link, i, j);
    LocalsFrame(c, s, s');
    DeliverDataBoxes(c, s, i, j, s');
    DeliverLinks(c, s, i, j, s');
    DeliverDataConserved(c, s, i, j, s');
  }

  /** Taking the first message off a link takes its version, if it has one, off the barrier's network. */
  lemma DeliverNet(link: seq<seq<seq<Item>>>, i: nat, j: nat)
    requires i < |link| && j < |link[i]| && link[i][j] != []
    ensures var m, net' := link[i][j][0], Net(Put(link, i, j, link[i][j][1..]));
            if m.Data? then net' == Net(link)
            else
              && m.version in Net(link)[i][j]
              && net' == VB.Put(Net(link), i, j, Net(link)[i][j] - multiset{m.version})
  {
    var l := link[i][j];
    VersionsHead(l);
    PutVersions(link, i, j, l[1..]);
    PutBack(Net(link), i, j);
    if l[0].Barrier? {
      assert Versions(l) - multiset{l[0].version} == Versions(l[1..]);
    } else {
      assert Net(link)[i][j] == Versions(l[1..]);
    }
  }

  lemma DeliverDataConserved(c: Config, s: State, i: nat, j: nat, s': State)
    requires WellFormed(c, s) && Conservation(c, s)
    requires Next(c, s, Deliver(i, j), s') && WellFormed(c, s') && s.link[i][j][0].Data?
    requires LinkOk(c, s, i, j)
    ensures Conservation(c, s')
  {
    var l, m := s.link[i][j], s.link[i][j][0];
    assert InTransit(c, s, i, j, m);
    assert multiset(l) == multiset{m} + multiset(l[1..]) by {
      assert l == [m] + l[1..];
    }
    forall m' ensures Conserved(c, s', m') {
      assert Conserved(c, s, m');
    }
  }

  lemma DeliverDataBoxes(c: Config, s: State, i: nat, j: nat, s': State)
    requires Inv(c, s) && Next(c, s, Deliver(i, j), s') && s.link[i][j][0].Data?
    ensures Boxes(s')
  {
    var m := s.link[i][j][0];
    assert LinkOk(c, s, i, j);
    assert InTransit(c, s, i, j, m);
    forall u: nat | u < |s'.th| ensures BoxesOk(s', u) {
      assert BoxesOk(s, u) && PlaceOk(c, s, u);
      if u == m.dst && s.th[u].drained && !s.th[u].arrived {
        NothingOnTheWay(c, s, u, i, m);
      }
    }
  }

  /** The link a message was taken from, and all the others. */
  lemma DeliverLinks(c: Config, s: State, i: nat, j: nat, s': State)
    requires WellFormed(c, s) && WellFormed(c, s') && Links(c, s) && i < c.n && j < c.n && s.link[i][j] != []
    requires s'.link == Put(s.link, i, j, s.link[i][j][1..])
    requires forall t :: 0 <= t < |s.th| ==> Expected(s'.th[t]) == Expected(s.th[t])
    requires forall i :: 0 <= i < c.n ==> s'.box[i].progress >= s.box[i].progress
    requires forall i': nat, j': nat, v: nat :: i' < c.n && j' < c.n && VB.Delivered(Proj(c, s'), c.n, i', j', v) ==>
               || VB.Delivered(Proj(c, s), c.n, i', j', v)
               || (i' == i && j' == j && s.link[i][j][0] == Barrier(v))
    ensures Links(c, s')
  {
    forall i': nat, j': nat | i' < c.n && j' < c.n ensures LinkOk(c, s', i', j') {
      assert LinkOk(c, s, i', j');
      if i' == i && j' == j {
        var l, l' := s.link[i][j], s'.link[i][j];
        forall k: nat | k < |l'| && l'[k].Data? ensures InTransit(c, s', i, j, l'[k]) {
          assert l'[k] == l[k + 1];
          assert InTransit(c, s, i, j, l[k + 1]);
        }
      } else {
        LinkFrame(c, s, s', i', j');
      }
    }
  }

  lemma DeliverBarrierInv(c: Config, s: State, i: nat, j: nat, s': State)
    requires Inv(c, s) && Next(c, s, Deliver(i, j), s') && s.link[i][j][0].Barrier?
    ensures Inv(c, s') && VB.Next(Proj(c, s), c.n, VB.Deliver(i, j, s.link[i][j][0].version), Proj(c, s'))
  {
    DeliverBarrierProj(c, s, i, j, s');
    VB.NextInv(Proj(c, s), c.n, VB.Deliver(i, j, s.link[i][j][0].version), Proj(c, s'));
    VB.DeliverOne(Proj(c, s), c.n, i, j, s.link[i][j][0].version, Proj(c, s'));
    LocalsFrame(c, s, s');
    BoxesFrame(s, s');
    DeliverLinks(c, s, i, j, s');
    DeliverBarrierConserved(c, s, i, j, s');
  }

  lemma DeliverBarrierProj(c: Config, s: State, i: nat, j: nat, s': State)
    requires WellFormed(c, s) && Next(c, s, Deliver(i, j), s') && s.link[i][j][0].Barrier?
    ensures WellFormed(c, s')
    ensures VB.Next(Proj(c, s), c.n, VB.Deliver(i, j, s.link[i][j][0].version), Proj(c, s'))
  {
    DeliverNet(s.link, i, j);
  }

  lemma DeliverBarrierConserved(c: Config, s: State, i: nat, j: nat, s': State)
    requires WellFormed(c, s) && Conservation(c, s)
    requires Next(c, s, Deliver(i, j), s') && WellFormed(c, s') && s.link[i][j][0].Barrier?
    ensures Conservation(c, s')
  {
    var l := s.link[i][j];
    assert multiset(l) == multiset{l[0]} + multiset(l[1..]) by {
      assert l == [l[0]] + l[1..];
    }
    forall m ensures Conserved(c, s', m) {
      assert Conserved(c, s, m);
    }
  }
}
