// The request queue of xv6/kernel/virtio_disk.c as a state machine: the driver publishes chains of
// three descriptors, a device fetches and completes them in any order (Virtio 1.1, sections 2.6
// and 5.2), the interrupt handler sees completions, and the requester frees its chain.

module VirtioState {
  import opened Common

  const NUM := 8
  const WRAP := 0x1_0000  // the ring indices are uint16

  datatype Addr = Nowhere | Header(i: nat) | Data(b: nat) | Status(i: nat)

  /** `chained` is VRING_DESC_F_NEXT, `write` VRING_DESC_F_WRITE. */
  datatype Desc = Desc(addr: Addr, len: nat, write: bool, chained: bool, next: nat)

  const BLANK := Desc(Nowhere, 0, false, false, 0)

  datatype Op = Op(write: bool, sector: nat)

  datatype Info = Info(b: Option<nat>, status: nat)

  /** Where a request is: at position `k` of the avail ring, with the device, at position `k` of the
      used ring, or seen by the interrupt handler. */
  datatype Phase = Queued(k: nat) | Fetched | Used(k: nat) | Seen

  /** A request in flight; its number counts the requests from the start. */
  datatype Req = Req(id: nat, b: nat, blockno: nat, write: bool, d1: nat, d2: nat, phase: Phase)

  /** The memory that driver and device share and the counters of both; `nA` to `nS` count without
      wrap-around what was published, fetched, completed and seen. `own` names the chain of a
      descriptor, `head` the chain of a request in flight; `given` and `got` say for which buffer
      each request was made and delivered. */
  datatype St = St(
    free: seq<bool>, desc: seq<Desc>, ops: seq<Op>, info: seq<Info>,
    avail: seq<nat>, availIdx: nat, used: seq<nat>, usedIdx: nat, seen: nat, devIdx: nat, busy: set<nat>,
    t: Track)

  datatype Track = Track(
    reqs: map<nat, Req>, own: map<nat, nat>, head: map<nat, nat>, nA: nat, nD: nat, nU: nat, nS: nat,
    given: map<nat, nat>, got: map<nat, nat>)

  // ---- the invariant ------------------------------------------------------------------------------------

  ghost predicate Shape(s: St) {
    && |s.free| == |s.desc| == |s.ops| == |s.info| == |s.avail| == |s.used| == NUM
    && s.availIdx == s.t.nA % WRAP && s.devIdx == s.t.nD % WRAP
    && s.usedIdx == s.t.nU % WRAP && s.seen == s.t.nS % WRAP
    && s.t.nD <= s.t.nA && s.t.nS <= s.t.nU
  }

  /** A request's chain: three descriptors, formatted for a disk operation on its buffer. */
  ghost predicate ChainAt(s: St, h: nat)
    requires Shape(s)
  {
    h in s.t.reqs ==>
      var r := s.t.reqs[h];
      && h < NUM && r.d1 < NUM && r.d2 < NUM && h != r.d1 && h != r.d2 && r.d1 != r.d2
      && OwnedBy(s, h, h) && OwnedBy(s, r.d1, h) && OwnedBy(s, r.d2, h)
      && s.desc[h] == Desc(Header(h), 16, false, true, r.d1)
      && s.desc[r.d1] == Desc(Data(r.b), 1024, !r.write, true, r.d2)
      && s.desc[r.d2] == Desc(Status(h), 1, true, false, 0)
      && s.ops[h] == Op(r.write, 2 * r.blockno)
      && s.info[h] == Info(Some(r.b), if r.phase.Queued? || r.phase.Fetched? then 255 else 0)
  }

  predicate OwnedBy(s: St, i: nat, h: nat) { i in s.t.own && s.t.own[i] == h }

  /** A descriptor is free or in exactly one chain. */
  ghost predicate DescAt(s: St, i: nat)
    requires Shape(s)
  {
    && (i < NUM ==> (s.free[i] <==> i !in s.t.own) && (s.free[i] ==> s.desc[i] == BLANK))
    && (i in s.t.own ==>
          i < NUM && s.t.own[i] in s.t.reqs
          && (i == s.t.own[i] || i == s.t.reqs[s.t.own[i]].d1 || i == s.t.reqs[s.t.own[i]].d2))
  }

  /** The rings and the request's place in them agree. */
  ghost predicate PhaseAt(s: St, h: nat)
    requires Shape(s)
  {
    h in s.t.reqs ==>
      match s.t.reqs[h].phase
      case Queued(k) => s.t.nD <= k < s.t.nA && s.avail[k % NUM] == h
      case Used(k) => s.t.nS <= k < s.t.nU && s.used[k % NUM] == h
      case _ => true
  }

  ghost predicate QueuedAt(s: St, k: nat)
    requires Shape(s)
  {
    s.t.nD <= k < s.t.nA ==> s.avail[k % NUM] in s.t.reqs && s.t.reqs[s.avail[k % NUM]].phase == Queued(k)
  }

  ghost predicate UsedAt(s: St, k: nat)
    requires Shape(s)
  {
    s.t.nS <= k < s.t.nU ==> s.used[k % NUM] in s.t.reqs && s.t.reqs[s.used[k % NUM]].phase == Used(k)
  }

  /** A request in flight has its own number and buffer, and is delivered when it was seen. */
  ghost predicate IdAt(s: St, h: nat) {
    h in s.t.reqs ==>
      var r := s.t.reqs[h];
      && r.id in s.t.head && s.t.head[r.id] == h && r.id in s.t.given && s.t.given[r.id] == r.b
      && (r.id in s.t.got <==> r.phase.Seen?) && (r.b in s.busy <==> !r.phase.Seen?)
  }

  ghost predicate BufAt(s: St, h: nat, h': nat) {
    h in s.t.reqs && h' in s.t.reqs && s.t.reqs[h].b == s.t.reqs[h'].b ==> h == h'
  }

  /** Every request ever made is in flight or was delivered, for its buffer. */
  ghost predicate NumberAt(s: St, id: nat) {
    && (id in s.t.given <==> id < s.t.nA)
    && (id in s.t.head ==> id in s.t.given && s.t.head[id] in s.t.reqs && s.t.reqs[s.t.head[id]].id == id)
    && (id in s.t.given && id !in s.t.head ==> id in s.t.got)
    && (id in s.t.got ==> id in s.t.given && s.t.got[id] == s.t.given[id])
  }

  ghost predicate Good(s: St) {
    && Shape(s) && |s.t.own| == 3 * |s.t.reqs|
    && (forall h {:trigger ChainAt(s, h)} :: ChainAt(s, h)) && (forall i {:trigger DescAt(s, i)} :: DescAt(s, i))
    && (forall h {:trigger PhaseAt(s, h)} :: PhaseAt(s, h)) && (forall h {:trigger IdAt(s, h)} :: IdAt(s, h))
    && (forall k {:trigger QueuedAt(s, k)} :: QueuedAt(s, k)) && (forall k {:trigger UsedAt(s, k)} :: UsedAt(s, k))
    && (forall h, h' {:trigger BufAt(s, h, h')} :: BufAt(s, h, h'))
    && (forall id {:trigger NumberAt(s, id)} :: NumberAt(s, id))
  }

  // ---- consequences ---------------------------------------------------------------------------------------

  /** At most two requests hold descriptors. */
  lemma TwoRequests(s: St)
    requires Good(s)
    ensures |s.t.reqs| <= 2
  {
    var all := {0, 1, 2, 3, 4, 5, 6, 7};
    forall i | i in s.t.own ensures i in all {
      assert DescAt(s, i);
    }
    SubsetSize(s.t.own.Keys, all);
    assert |s.t.own.Keys| == |s.t.own|;
  }

  lemma ThreeInMap(m: map<nat, Req>, a: nat, b: nat, c: nat)
    requires a in m && b in m && c in m && a != b && a != c && b != c
    ensures |m| >= 3
  {
    SubsetSize({a, b, c}, m.Keys);
    assert |m.Keys| == |m|;
  }

  /** So the rings never hold more than two entries that the other side has not read. */
  lemma RingsShort(s: St)
    requires Good(s)
    ensures s.t.nA - s.t.nD <= 2 && s.t.nU - s.t.nS <= 2
    ensures s.devIdx != s.availIdx <==> s.t.nD < s.t.nA
    ensures s.seen != s.usedIdx <==> s.t.nS < s.t.nU
  {
    TwoRequests(s);
    if s.t.nA - s.t.nD > 2 {
      var k := s.t.nD;
      assert QueuedAt(s, k) && QueuedAt(s, k + 1) && QueuedAt(s, k + 2);
      ThreeInMap(s.t.reqs, s.avail[k % NUM], s.avail[(k + 1) % NUM], s.avail[(k + 2) % NUM]);
    }
    if s.t.nU - s.t.nS > 2 {
      var k := s.t.nS;
      assert UsedAt(s, k) && UsedAt(s, k + 1) && UsedAt(s, k + 2);
      ThreeInMap(s.t.reqs, s.used[k % NUM], s.used[(k + 1) % NUM], s.used[(k + 2) % NUM]);
    }
    WrapApart(s.t.nD, s.t.nA);
    WrapApart(s.t.nS, s.t.nU);
  }

  /** Indices that wrap at 2^16 still tell apart counters that are close together. */
  lemma WrapApart(a: nat, b: nat)
    requires a <= b <= a + 2
    ensures a % WRAP != b % WRAP <==> a < b
  {
  }

  lemma WrapRing(k: nat)
    ensures (k % WRAP) % NUM == k % NUM && (k % WRAP + 1) % WRAP == (k + 1) % WRAP
  {
    var q, r := k / WRAP, k % WRAP;
    SmallMod(q, r);
    assert k + 1 == WRAP * q + (r + 1);
    NextMod(q, r);
  }

  lemma SmallMod(q: nat, r: nat)
    requires r < WRAP
    ensures (WRAP * q + r) % NUM == r % NUM
  {
    ModIs(r, r / NUM, r % NUM);
    ModIs(WRAP * q + r, 8192 * q + r / NUM, r % NUM);
  }

  lemma ModIs(x: nat, n: nat, b: nat)
    requires x == NUM * n + b && b < NUM
    ensures x % NUM == b
  {
  }

  lemma NextMod(q: nat, r: nat)
    requires r < WRAP
    ensures (WRAP * q + (r + 1)) % WRAP == (r + 1) % WRAP
  {
    if r + 1 == WRAP {
      assert WRAP * q + (r + 1) == WRAP * (q + 1);
    }
  }

  // ---- the steps --------------------------------------------------------------------------------------------

  ghost predicate CanPublish(s: St, h: nat, d1: nat, d2: nat, b: nat) {
    && Shape(s) && h < NUM && d1 < NUM && d2 < NUM && h != d1 && h != d2 && d1 != d2
    && s.free[h] && s.free[d1] && s.free[d2] && forall x | x in s.t.reqs :: s.t.reqs[x].b != b
  }

  /** virtio_disk_rw() from the allocation of the chain to the notification. */
  function Publish(s: St, h: nat, d1: nat, d2: nat, b: nat, blockno: nat, write: bool): St
    requires CanPublish(s, h, d1, d2, b)
  {
    s.(free := s.free[h := false][d1 := false][d2 := false],
       desc := s.desc[h := Desc(Header(h), 16, false, true, d1)][d1 := Desc(Data(b), 1024, !write, true, d2)]
                     [d2 := Desc(Status(h), 1, true, false, 0)],
       ops := s.ops[h := Op(write, 2 * blockno)], info := s.info[h := Info(Some(b), 255)],
       avail := s.avail[s.availIdx % NUM := h], availIdx := (s.availIdx + 1) % WRAP, busy := s.busy + {b},
       t := s.t.(reqs := s.t.reqs[h := Req(s.t.nA, b, blockno, write, d1, d2, Queued(s.t.nA))],
                 own := s.t.own[h := h][d1 := h][d2 := h], head := s.t.head[s.t.nA := h], nA := s.t.nA + 1,
                 given := s.t.given[s.t.nA := b]))
  }

  function SetPhase(t: Track, h: nat, p: Phase): map<nat, Req>
    requires h in t.reqs
  {
    t.reqs[h := t.reqs[h].(phase := p)]
  }

  /** The device reads the next entry of the avail ring. */
  function Fetch(s: St): St
    requires Shape(s) && s.avail[s.devIdx % NUM] in s.t.reqs
  {
    s.(devIdx := (s.devIdx + 1) % WRAP,
       t := s.t.(reqs := SetPhase(s.t, s.avail[s.devIdx % NUM], Fetched), nD := s.t.nD + 1))
  }

  /** The device finishes a request it has fetched: status, used ring, used index. */
  function Complete(s: St, h: nat): St
    requires Shape(s) && h in s.t.reqs && h < NUM
  {
    s.(info := s.info[h := s.info[h].(status := 0)], used := s.used[s.usedIdx % NUM := h],
       usedIdx := (s.usedIdx + 1) % WRAP,
       t := s.t.(reqs := SetPhase(s.t, h, Used(s.t.nU)), nU := s.t.nU + 1))
  }

  /** One turn of the loop of virtio_disk_intr(). */
  function See(s: St): St
    requires Shape(s) && s.used[s.seen % NUM] in s.t.reqs
  {
    var h := s.used[s.seen % NUM];
    var r := s.t.reqs[h];
    s.(busy := s.busy - {r.b}, seen := (s.seen + 1) % WRAP,
       t := s.t.(reqs := SetPhase(s.t, h, Seen), nS := s.t.nS + 1, got := s.t.got[r.id := r.b]))
  }

  /** The requester frees the chain. */
  function Drop(s: St, h: nat): St
    requires Shape(s) && h in s.t.reqs && h < NUM && s.t.reqs[h].d1 < NUM && s.t.reqs[h].d2 < NUM
  {
    var r := s.t.reqs[h];
    s.(free := s.free[h := true][r.d1 := true][r.d2 := true],
       desc := s.desc[h := BLANK][r.d1 := BLANK][r.d2 := BLANK], info := s.info[h := s.info[h].(b := None)],
       t := s.t.(reqs := s.t.reqs - {h}, own := s.t.own - {h, r.d1, r.d2}, head := s.t.head - {r.id}))
  }
}
