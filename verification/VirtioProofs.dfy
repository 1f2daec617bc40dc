// Every step of the request queue keeps the invariant.

module VirtioProofs {
  import opened Common
  import opened VirtioState

  // ---- publishing -------------------------------------------------------------------------------------------

  lemma SlotApart(k: nat, n: nat)
    requires k < n <= k + 2
    ensures k % NUM != n % NUM
  {
  }

  lemma PublishOwn(s: St, h: nat, d1: nat, d2: nat)
    requires Good(s) && h < NUM && d1 < NUM && d2 < NUM && h != d1 && h != d2 && d1 != d2
    requires s.free[h] && s.free[d1] && s.free[d2]
    ensures h !in s.t.own && d1 !in s.t.own && d2 !in s.t.own && h !in s.t.reqs
    ensures |s.t.own[h := h][d1 := h][d2 := h]| == |s.t.own| + 3
  {
    assert DescAt(s, h) && DescAt(s, d1) && DescAt(s, d2) && ChainAt(s, h);
  }

  /** The chain of an earlier request keeps its descriptors. */
  lemma OldChain(s: St, h: nat, d1: nat, d2: nat, b: nat, blockno: nat, write: bool, x: nat)
    requires CanPublish(s, h, d1, d2, b) && Shape(Publish(s, h, d1, d2, b, blockno, write))
    requires h !in s.t.own && d1 !in s.t.own && d2 !in s.t.own && x != h && ChainAt(s, x)
    ensures ChainAt(Publish(s, h, d1, d2, b, blockno, write), x)
  {
    hide Shape;
    ShapeLengths(s);
  }

  lemma ShapeLengths(s: St)
    requires Shape(s)
    ensures |s.free| == |s.desc| == |s.ops| == |s.info| == |s.avail| == |s.used| == NUM
  {
  }

  lemma NewChain(s: St, h: nat, d1: nat, d2: nat, b: nat, blockno: nat, write: bool)
    requires CanPublish(s, h, d1, d2, b) && Shape(Publish(s, h, d1, d2, b, blockno, write))
    ensures ChainAt(Publish(s, h, d1, d2, b, blockno, write), h)
  {
    hide Shape;
    ShapeLengths(s);
  }

  lemma PublishChains(s: St, h: nat, d1: nat, d2: nat, b: nat, blockno: nat, write: bool)
    requires Good(s) && CanPublish(s, h, d1, d2, b) && Shape(Publish(s, h, d1, d2, b, blockno, write))
    ensures forall x :: ChainAt(Publish(s, h, d1, d2, b, blockno, write), x)
  {
    hide ChainAt, DescAt, PhaseAt, IdAt, QueuedAt, UsedAt, BufAt, NumberAt, Shape;
    PublishOwn(s, h, d1, d2);
    forall x ensures ChainAt(Publish(s, h, d1, d2, b, blockno, write), x) {
      if x == h {
        NewChain(s, h, d1, d2, b, blockno, write);
      } else {
        assert ChainAt(s, x);
        OldChain(s, h, d1, d2, b, blockno, write, x);
      }
    }
  }

  lemma PublishDescs(s: St, h: nat, d1: nat, d2: nat, b: nat, blockno: nat, write: bool)
    requires Good(s) && CanPublish(s, h, d1, d2, b) && Shape(Publish(s, h, d1, d2, b, blockno, write))
    ensures forall i :: DescAt(Publish(s, h, d1, d2, b, blockno, write), i)
  {
    PublishOwn(s, h, d1, d2);
    RingsShort(s);
    WrapRing(s.t.nA);
    var s' := Publish(s, h, d1, d2, b, blockno, write);
    forall i ensures DescAt(s', i) { assert DescAt(s, i); }
  }

  lemma PublishPhases(s: St, h: nat, d1: nat, d2: nat, b: nat, blockno: nat, write: bool)
    requires Good(s) && CanPublish(s, h, d1, d2, b) && Shape(Publish(s, h, d1, d2, b, blockno, write))
    ensures forall x :: PhaseAt(Publish(s, h, d1, d2, b, blockno, write), x)
  {
    hide ChainAt, DescAt, IdAt, QueuedAt, UsedAt, BufAt, NumberAt;
    PublishOwn(s, h, d1, d2);
    RingsShort(s);
    WrapRing(s.t.nA);
    var s' := Publish(s, h, d1, d2, b, blockno, write);
    forall x ensures PhaseAt(s', x) {
      assert PhaseAt(s, x);
      if x in s.t.reqs && s.t.reqs[x].phase.Queued? { SlotApart(s.t.reqs[x].phase.k, s.t.nA); }
    }
  }

  lemma PublishIds(s: St, h: nat, d1: nat, d2: nat, b: nat, blockno: nat, write: bool)
    requires Good(s) && CanPublish(s, h, d1, d2, b) && Shape(Publish(s, h, d1, d2, b, blockno, write))
    ensures forall x :: IdAt(Publish(s, h, d1, d2, b, blockno, write), x)
  {
    PublishOwn(s, h, d1, d2);
    RingsShort(s);
    WrapRing(s.t.nA);
    var s' := Publish(s, h, d1, d2, b, blockno, write);
    forall x ensures IdAt(s', x) { assert IdAt(s, x) && NumberAt(s, s.t.nA); }
  }

  lemma PublishQueued(s: St, h: nat, d1: nat, d2: nat, b: nat, blockno: nat, write: bool)
    requires Good(s) && CanPublish(s, h, d1, d2, b) && Shape(Publish(s, h, d1, d2, b, blockno, write))
    ensures forall k :: QueuedAt(Publish(s, h, d1, d2, b, blockno, write), k)
  {
    hide ChainAt, DescAt, PhaseAt, IdAt, UsedAt, BufAt, NumberAt;
    PublishOwn(s, h, d1, d2);
    RingsShort(s);
    WrapRing(s.t.nA);
    var s' := Publish(s, h, d1, d2, b, blockno, write);
    forall k: nat ensures QueuedAt(s', k) {
      assert QueuedAt(s, k);
      if s.t.nD <= k < s.t.nA { SlotApart(k, s.t.nA); }
    }
  }

  lemma PublishUseds(s: St, h: nat, d1: nat, d2: nat, b: nat, blockno: nat, write: bool)
    requires Good(s) && CanPublish(s, h, d1, d2, b) && Shape(Publish(s, h, d1, d2, b, blockno, write))
    ensures forall k :: UsedAt(Publish(s, h, d1, d2, b, blockno, write), k)
  {
    hide ChainAt, DescAt, PhaseAt, IdAt, QueuedAt, BufAt, NumberAt;
    PublishOwn(s, h, d1, d2);
    RingsShort(s);
    WrapRing(s.t.nA);
    var s' := Publish(s, h, d1, d2, b, blockno, write);
    forall k: nat ensures UsedAt(s', k) { assert UsedAt(s, k); }
  }

  lemma PublishBufs(s: St, h: nat, d1: nat, d2: nat, b: nat, blockno: nat, write: bool)
    requires Good(s) && CanPublish(s, h, d1, d2, b) && Shape(Publish(s, h, d1, d2, b, blockno, write))
    ensures forall x, y :: BufAt(Publish(s, h, d1, d2, b, blockno, write), x, y)
  {
    PublishOwn(s, h, d1, d2);
    RingsShort(s);
    WrapRing(s.t.nA);
    var s' := Publish(s, h, d1, d2, b, blockno, write);
    forall x, y ensures BufAt(s', x, y) { assert BufAt(s, x, y); }
  }

  lemma PublishNumbers(s: St, h: nat, d1: nat, d2: nat, b: nat, blockno: nat, write: bool)
    requires Good(s) && CanPublish(s, h, d1, d2, b) && Shape(Publish(s, h, d1, d2, b, blockno, write))
    ensures forall id :: NumberAt(Publish(s, h, d1, d2, b, blockno, write), id)
  {
    PublishOwn(s, h, d1, d2);
    RingsShort(s);
    WrapRing(s.t.nA);
    var s' := Publish(s, h, d1, d2, b, blockno, write);
    forall id ensures NumberAt(s', id) { assert NumberAt(s, id); }
  }

  lemma PublishGood(s: St, h: nat, d1: nat, d2: nat, b: nat, blockno: nat, write: bool)
    requires Good(s) && CanPublish(s, h, d1, d2, b)
    ensures Good(Publish(s, h, d1, d2, b, blockno, write))
  {
    hide ChainAt, DescAt, PhaseAt, IdAt, QueuedAt, UsedAt, BufAt, NumberAt;
    PublishOwn(s, h, d1, d2);
    WrapRing(s.t.nA);
    PublishChains(s, h, d1, d2, b, blockno, write);
    PublishDescs(s, h, d1, d2, b, blockno, write);
    PublishPhases(s, h, d1, d2, b, blockno, write);
    PublishIds(s, h, d1, d2, b, blockno, write);
    PublishQueued(s, h, d1, d2, b, blockno, write);
    PublishUseds(s, h, d1, d2, b, blockno, write);
    PublishBufs(s, h, d1, d2, b, blockno, write);
    PublishNumbers(s, h, d1, d2, b, blockno, write);
  }

  lemma FetchGood(s: St)
    requires Good(s) && s.devIdx != s.availIdx
    ensures s.avail[s.devIdx % NUM] in s.t.reqs && s.t.reqs[s.avail[s.devIdx % NUM]].phase == Queued(s.t.nD)
             && Good(Fetch(s))
  {
    RingsShort(s);
    WrapRing(s.t.nD);
    assert QueuedAt(s, s.t.nD);
    var h, s' := s.avail[s.devIdx % NUM], Fetch(s);
    assert Shape(s') && |s'.t.own| == 3 * |s'.t.reqs|;
    forall x ensures ChainAt(s', x) { assert ChainAt(s, x); }
    forall i ensures DescAt(s', i) { assert DescAt(s, i); }
    forall x ensures PhaseAt(s', x) { assert PhaseAt(s, x); }
    forall x ensures IdAt(s', x) { assert IdAt(s, x); }
    forall k: nat ensures QueuedAt(s', k) { assert QueuedAt(s, k); }
    forall k: nat ensures UsedAt(s', k) { assert UsedAt(s, k); }
    forall x, y ensures BufAt(s', x, y) { assert BufAt(s, x, y); }
    forall id ensures NumberAt(s', id) { assert NumberAt(s, id); }
  }

  lemma CompleteChains(s: St, h: nat)
    requires Good(s) && h in s.t.reqs && s.t.reqs[h].phase == Fetched && h < NUM && Shape(Complete(s, h))
    ensures forall x :: ChainAt(Complete(s, h), x)
  {
    RingsShort(s);
    WrapRing(s.t.nU);
    assert ChainAt(s, h);
    var s' := Complete(s, h);
    forall x ensures ChainAt(s', x) { assert ChainAt(s, x); }
  }

  lemma CompleteDescs(s: St, h: nat)
    requires Good(s) && h in s.t.reqs && s.t.reqs[h].phase == Fetched && h < NUM && Shape(Complete(s, h))
    ensures forall i :: DescAt(Complete(s, h), i)
  {
    RingsShort(s);
    WrapRing(s.t.nU);
    assert ChainAt(s, h);
    var s' := Complete(s, h);
    forall i ensures DescAt(s', i) { assert DescAt(s, i); }
  }

  lemma CompletePhases(s: St, h: nat)
    requires Good(s) && h in s.t.reqs && s.t.reqs[h].phase == Fetched && h < NUM && Shape(Complete(s, h))
    ensures forall x :: PhaseAt(Complete(s, h), x)
  {
    hide ChainAt, DescAt, IdAt, QueuedAt, UsedAt, BufAt, NumberAt;
    RingsShort(s);
    WrapRing(s.t.nU);
    assert ChainAt(s, h);
    var s' := Complete(s, h);
    forall x ensures PhaseAt(s', x) {
      assert PhaseAt(s, x);
      if x in s.t.reqs && s.t.reqs[x].phase.Used? { SlotApart(s.t.reqs[x].phase.k, s.t.nU); }
    }
  }

  lemma CompleteIds(s: St, h: nat)
    requires Good(s) && h in s.t.reqs && s.t.reqs[h].phase == Fetched && h < NUM && Shape(Complete(s, h))
    ensures forall x :: IdAt(Complete(s, h), x)
  {
    RingsShort(s);
    WrapRing(s.t.nU);
    assert ChainAt(s, h);
    var s' := Complete(s, h);
    forall x ensures IdAt(s', x) { assert IdAt(s, x); }
  }

  lemma CompleteQueued(s: St, h: nat)
    requires Good(s) && h in s.t.reqs && s.t.reqs[h].phase == Fetched && h < NUM && Shape(Complete(s, h))
    ensures forall k :: QueuedAt(Complete(s, h), k)
  {
    hide ChainAt, DescAt, PhaseAt, IdAt, UsedAt, BufAt, NumberAt;
    RingsShort(s);
    WrapRing(s.t.nU);
    assert ChainAt(s, h);
    var s' := Complete(s, h);
    forall k: nat ensures QueuedAt(s', k) { assert QueuedAt(s, k); }
  }

  lemma CompleteUseds(s: St, h: nat)
    requires Good(s) && h in s.t.reqs && s.t.reqs[h].phase == Fetched && h < NUM && Shape(Complete(s, h))
    ensures forall k :: UsedAt(Complete(s, h), k)
  {
    hide ChainAt, DescAt, PhaseAt, IdAt, QueuedAt, BufAt, NumberAt;
    RingsShort(s);
    WrapRing(s.t.nU);
    assert ChainAt(s, h);
    var s' := Complete(s, h);
    forall k: nat ensures UsedAt(s', k) {
      assert UsedAt(s, k);
      if s.t.nS <= k < s.t.nU { SlotApart(k, s.t.nU); }
    }
  }

  lemma CompleteBufs(s: St, h: nat)
    requires Good(s) && h in s.t.reqs && s.t.reqs[h].phase == Fetched && h < NUM && Shape(Complete(s, h))
    ensures forall x, y :: BufAt(Complete(s, h), x, y)
  {
    RingsShort(s);
    WrapRing(s.t.nU);
    assert ChainAt(s, h);
    var s' := Complete(s, h);
    forall x, y ensures BufAt(s', x, y) { assert BufAt(s, x, y); }
  }

  lemma CompleteNumbers(s: St, h: nat)
    requires Good(s) && h in s.t.reqs && s.t.reqs[h].phase == Fetched && h < NUM && Shape(Complete(s, h))
    ensures forall id :: NumberAt(Complete(s, h), id)
  {
    RingsShort(s);
    WrapRing(s.t.nU);
    assert ChainAt(s, h);
    var s' := Complete(s, h);
    forall id ensures NumberAt(s', id) { assert NumberAt(s, id); }
  }

  lemma CompleteGood(s: St, h: nat)
    requires Good(s) && h in s.t.reqs && s.t.reqs[h].phase == Fetched
    ensures h < NUM && Good(Complete(s, h))
  {
    HeadInRange(s, h);
    hide ChainAt, DescAt, PhaseAt, IdAt, QueuedAt, UsedAt, BufAt, NumberAt;
    WrapRing(s.t.nU);
    CompleteChains(s, h);
    CompleteDescs(s, h);
    CompletePhases(s, h);
    CompleteIds(s, h);
    CompleteQueued(s, h);
    CompleteUseds(s, h);
    CompleteBufs(s, h);
    CompleteNumbers(s, h);
  }

  lemma HeadInRange(s: St, h: nat)
    requires Good(s) && h in s.t.reqs
    ensures h < NUM
  {
    assert ChainAt(s, h);
  }

  /** The interrupt handler finds the status 0 and the buffer of the request, which was not delivered
      before. */
  lemma SeeGood(s: St)
    requires Good(s) && s.seen != s.usedIdx
    ensures var h := s.used[s.seen % NUM];
            && h in s.t.reqs && s.t.reqs[h].phase == Used(s.t.nS) && h < NUM
            && s.info[h] == Info(Some(s.t.reqs[h].b), 0) && s.t.reqs[h].b in s.busy && s.t.reqs[h].id !in s.t.got
            && s.t.reqs[h].id in s.t.given && s.t.given[s.t.reqs[h].id] == s.t.reqs[h].b
            && Good(See(s))
  {
    RingsShort(s);
    WrapRing(s.t.nS);
    assert UsedAt(s, s.t.nS);
    var h := s.used[s.seen % NUM];
    assert ChainAt(s, h) && IdAt(s, h);
    var s' := See(s);
    assert Shape(s') && |s'.t.own| == 3 * |s'.t.reqs|;
    forall x ensures ChainAt(s', x) { assert ChainAt(s, x); }
    forall i ensures DescAt(s', i) { assert DescAt(s, i); }
    forall x ensures PhaseAt(s', x) { assert PhaseAt(s, x); }
    forall x ensures IdAt(s', x) { assert IdAt(s, x) && BufAt(s, x, h); }
    forall k: nat ensures QueuedAt(s', k) { assert QueuedAt(s, k); }
    forall k: nat ensures UsedAt(s', k) { assert UsedAt(s, k); }
    forall x, y ensures BufAt(s', x, y) { assert BufAt(s, x, y); }
    forall id ensures NumberAt(s', id) { assert NumberAt(s, id); }
  }

  lemma DropOwn(s: St, h: nat)
    requires Good(s) && h in s.t.reqs
    ensures h < NUM && s.t.reqs[h].d1 < NUM && s.t.reqs[h].d2 < NUM
    ensures |s.t.own - {h, s.t.reqs[h].d1, s.t.reqs[h].d2}| == |s.t.own| - 3 && |s.t.reqs - {h}| == |s.t.reqs| - 1
  {
    hide DescAt, PhaseAt, IdAt, QueuedAt, UsedAt, BufAt, NumberAt;
    assert ChainAt(s, h);
    var r := s.t.reqs[h];
    RemoveThree(s.t.own, h, r.d1, r.d2);
    RemoveOne(s.t.reqs, h);
  }

  lemma RemoveThree(m: map<nat, nat>, a: nat, b: nat, c: nat)
    requires a in m && b in m && c in m && a != b && a != c && b != c
    ensures |m - {a, b, c}| == |m| - 3
  {
    assert (m - {a, b, c}).Keys == m.Keys - {a, b, c} && |{a, b, c}| == 3;
    assert |m.Keys| == |m| && |(m - {a, b, c}).Keys| == |m - {a, b, c}|;
  }

  lemma RemoveOne(m: map<nat, Req>, a: nat)
    requires a in m
    ensures |m - {a}| == |m| - 1
  {
    assert (m - {a}).Keys == m.Keys - {a};
    assert |m.Keys| == |m| && |(m - {a}).Keys| == |m - {a}|;
  }

  lemma DropChains(s: St, h: nat)
    requires Good(s) && h in s.t.reqs && s.t.reqs[h].phase == Seen
    ensures h < NUM && s.t.reqs[h].d1 < NUM && s.t.reqs[h].d2 < NUM
    ensures Shape(Drop(s, h)) && |Drop(s, h).t.own| == 3 * |Drop(s, h).t.reqs|
    ensures forall x :: ChainAt(Drop(s, h), x)
  {
    hide DescAt, PhaseAt, IdAt, QueuedAt, UsedAt, BufAt, NumberAt;
    DropOwn(s, h);
    assert ChainAt(s, h);
    var s' := Drop(s, h);
    forall x ensures ChainAt(s', x) { assert ChainAt(s, x); }
  }

  lemma DropDescs(s: St, h: nat)
    requires Good(s) && h in s.t.reqs && h < NUM && s.t.reqs[h].d1 < NUM && s.t.reqs[h].d2 < NUM && Shape(Drop(s, h))
    ensures forall i :: DescAt(Drop(s, h), i)
  {
    hide PhaseAt, IdAt, QueuedAt, UsedAt, BufAt, NumberAt;
    assert ChainAt(s, h);
    var s' := Drop(s, h);
    forall i ensures DescAt(s', i) { assert DescAt(s, i); }
  }

  lemma DropGood(s: St, h: nat)
    requires Good(s) && h in s.t.reqs && s.t.reqs[h].phase == Seen
    ensures h < NUM && s.t.reqs[h].d1 < NUM && s.t.reqs[h].d2 < NUM && Good(Drop(s, h))
  {
    hide ChainAt, DescAt, OwnedBy;
    DropChains(s, h);
    DropDescs(s, h);
    assert IdAt(s, h);
    var s' := Drop(s, h);
    forall x ensures PhaseAt(s', x) { assert PhaseAt(s, x); }
    forall x ensures IdAt(s', x) { assert IdAt(s, x); }
    forall k: nat ensures QueuedAt(s', k) { assert QueuedAt(s, k); }
    forall k: nat ensures UsedAt(s', k) { assert UsedAt(s, k); }
    forall x, y ensures BufAt(s', x, y) { assert BufAt(s, x, y); }
    forall id ensures NumberAt(s', id) { assert NumberAt(s, id); }
  }
}
