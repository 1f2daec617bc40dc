// The code of xv6/kernel/virtio_disk.c. The device moves between any two of the driver's methods,
// between the turns of the interrupt handler's loop, and between the statements that make a request.

module VirtioCode {
  import opened Common
  import opened VirtioState
  import opened VirtioProofs

  /** The free descriptors. */
  ghost function FreeSet(free: seq<bool>): set<nat> { set i: nat | i < |free| && free[i] }

  class Disk {
    var free: seq<bool>
    var desc: seq<Desc>
    var ops: seq<Op>
    var info: seq<Info>
    var avail: seq<nat>
    var availIdx: nat
    var used: seq<nat>
    var usedIdx: nat
    var seen: nat      // disk.used_idx
    var devIdx: nat    // the device's position in the avail ring
    var busy: set<nat> // buffers whose `disk` field is 1
    var held: set<nat> // the chains that the device has fetched and not completed
    ghost var t: Track

    ghost function S(): St
      reads this
    {
      St(free, desc, ops, info, avail, availIdx, used, usedIdx, seen, devIdx, busy, t)
    }

    ghost predicate Valid()
      reads this
    {
      Good(S()) && forall h :: h in held <==> h in t.reqs && t.reqs[h].phase == Fetched
    }

    /** virtio_disk_init, the part that concerns the queue. */
    constructor ()
      ensures Valid() && t.nA == 0 && t.reqs == map[]
    {
      free, desc := seq(NUM, _ => true), seq(NUM, _ => BLANK);
      ops, info := seq(NUM, _ => Op(false, 0)), seq(NUM, _ => Info(None, 0));
      avail, used := seq(NUM, _ => 0), seq(NUM, _ => 0);
      availIdx, usedIdx, seen, devIdx, busy, held := 0, 0, 0, 0, {}, {};
      t := Track(map[], map[], map[], 0, 0, 0, 0, map[], map[]);
    }

    // ---- descriptors -----------------------------------------------------------------------------------

    /** alloc_desc */
    method AllocDesc() returns (r: int)
      requires |free| == NUM
      modifies this`free
      ensures r == -1 ==> free == old(free) && FreeSet(free) == {}
      ensures r != -1 ==> 0 <= r < NUM && old(free)[r] && free == old(free)[r := false]
    {
      var i := 0;
      while i < NUM
        invariant 0 <= i <= NUM && free == old(free) && forall k | 0 <= k < i :: !free[k]
      {
        if free[i] {
          free := free[i := false];
          return i;
        }
        i := i + 1;
      }
      return -1;
    }

    /** free_desc: its two panics are the preconditions. */
    method FreeDesc(i: nat)
      requires |free| == |desc| == NUM && i < NUM && !free[i]
      modifies this`free, this`desc
      ensures free == old(free)[i := true] && desc == old(desc)[i := BLANK]
    {
      desc := desc[i := BLANK];
      free := free[i := true];
    }

    /** free_chain */
    method FreeChain(h: nat, ghost d1: nat, ghost d2: nat)
      requires |free| == |desc| == NUM && h < NUM && d1 < NUM && d2 < NUM && h != d1 && h != d2 && d1 != d2
      requires !free[h] && !free[d1] && !free[d2]
      requires desc[h].chained && desc[h].next == d1 && desc[d1].chained && desc[d1].next == d2 && !desc[d2].chained
      modifies this`free, this`desc
      ensures free == old(free)[h := true][d1 := true][d2 := true]
      ensures desc == old(desc)[h := BLANK][d1 := BLANK][d2 := BLANK]
    {
      var i := h;
      ghost var at := 0;
      while true
        invariant |free| == |desc| == NUM && 0 <= at <= 2 && i == [h, d1, d2][at]
        invariant free == if at == 0 then old(free) else if at == 1 then old(free)[h := true] else old(free)[h := true][d1 := true]
        invariant desc == if at == 0 then old(desc) else if at == 1 then old(desc)[h := BLANK] else old(desc)[h := BLANK][d1 := BLANK]
        decreases 2 - at
      {
        var chained, next := desc[i].chained, desc[i].next;
        FreeDesc(i);
        if chained {
          i, at := next, at + 1;
        } else {
          break;
        }
      }
    }

    /** alloc3_desc: it fails exactly when fewer than three descriptors are free, and then changes
        nothing. */
    method Alloc3Desc() returns (ok: bool, idx: seq<nat>)
      requires |free| == |desc| == NUM && forall i | 0 <= i < NUM && free[i] :: desc[i] == BLANK
      modifies this`free, this`desc
      ensures desc == old(desc) && (ok <==> |FreeSet(old(free))| >= 3)
      ensures !ok ==> free == old(free)
      ensures ok ==> |idx| == 3 && idx[0] < NUM && idx[1] < NUM && idx[2] < NUM
                     && idx[0] != idx[1] && idx[0] != idx[2] && idx[1] != idx[2]
                     && old(free)[idx[0]] && old(free)[idx[1]] && old(free)[idx[2]]
                     && free == old(free)[idx[0] := false][idx[1] := false][idx[2] := false]
    {
      hide FreeSet, Taken;
      idx := [];
      var i := 0;
      NoneTaken(free);
      while i < 3
        invariant 0 <= i <= 3 && |idx| == i && |free| == NUM && desc == old(desc)
        invariant Taken(old(free), free, idx) && |FreeSet(free)| == |FreeSet(old(free))| - i
      {
        ghost var before := free;
        var d := AllocDesc();
        if d < 0 {
          var j := 0;
          assert idx[0..] == idx;
          while j < i
            invariant 0 <= j <= i && |free| == |desc| == NUM && desc == old(desc) && Taken(old(free), free, idx[j..])
          {
            TakenNext(old(free), free, idx[j..]);
            assert idx[j..][0] == idx[j];
            FreeDesc(idx[j]);
            assert desc == old(desc);
            assert idx[j..][1..] == idx[j + 1..];
            j := j + 1;
          }
          assert idx[i..] == [];
          TakenParts(old(free), free, []);
          return false, [];
        }
        TakenMore(old(free), before, idx, d);
        FreeLess(before, d);
        idx := idx + [d];
        i := i + 1;
      }
      TakenParts(old(free), free, idx);
      assert free == old(free)[idx[0] := false][idx[1] := false][idx[2] := false];
      return true, idx;
    }

    // ---- requests --------------------------------------------------------------------------------------

    /** virtio_disk_rw up to its wait for the completion, with the device moving after each statement
        that writes to shared memory: `moves(i)` after the i-th. The buffer is locked by the caller, so
        no other request uses it. Without three free descriptors the caller sleeps and tries again. */
    method Submit(b: nat, blockno: nat, write: bool, moves: nat -> seq<Move>) returns (ok: bool, h: nat)
      requires Valid() && forall x | x in t.reqs :: t.reqs[x].b != b
      modifies this
      ensures Valid() && (ok <==> |FreeSet(old(free))| >= 3)
      ensures !ok ==> S() == old(S())
      ensures ok ==> h in t.reqs && h !in old(t.reqs) && t.reqs[h].b == b && t.reqs[h].write == write && t.reqs[h].id == old(t.nA)
                     && t.given == old(t.given)[old(t.nA) := b] && t.got == old(t.got)
      ensures ok ==> t.reqs.Keys == old(t.reqs.Keys) + {h} && forall x | x in old(t.reqs) :: Later(old(t.reqs)[x], t.reqs[x])
    {
      hide Good, Shape, CanPublish, Publish, FreeSet, Making, Progress, Later;
      ghost var s := S();
      FreeBlank(s);
      GoodShape(s);
      var idx;
      ok, idx := Alloc3Desc();
      if !ok {
        return false, 0;
      }
      h := idx[0];
      Requestable(s, h, idx[1], idx[2], b);
      MakingStart(s, h, idx[1], idx[2], b);
      ghost var s' := Offer(blockno, write, Order(h, idx[1], idx[2], b), moves, s);
      PublishGood(s', h, idx[1], idx[2], b, blockno, write);
      PublishNew(s', h, idx[1], idx[2], b, blockno, write);
      FetchedSame(s', h, idx[1], idx[2], b, blockno, write);
      PublishProgress(s, s', h, idx[1], idx[2], b, blockno, write);
    }

    /** From the formatting of the descriptors to the new index of the avail ring: the outcome is that
        of an undisturbed publication after all moves of the device. */
    method Offer(blockno: nat, write: bool, r: Order, moves: nat -> seq<Move>, ghost s: St) returns (ghost s': St)
      requires Good(s) && Holds(s) && Making(s, S(), r)
      modifies this`desc, this`ops, this`info, this`busy, this`avail, this`availIdx, this`used, this`usedIdx, this`devIdx,
               this`held, this`t
      ensures Good(s') && Holds(s') && DeviceMoved(s, s') && CanPublish(s', r.h, r.d1, r.d2, r.b)
      ensures S() == Publish(s', r.h, r.d1, r.d2, r.b, blockno, write)
    {
      hide Good, Shape, CanPublish, Publish, Making, DeviceMoved;
      s' := Format(blockno, write, r, moves, s);
      MakingParts(s', S(), r);
      MakingAvail(s', S(), r);
      avail := avail[availIdx % NUM := r.h];
      s' := DeviceMoves(moves(7), s, s', Some(r));
      MakingParts(s', S(), r);
      MakingDone(s', S(), r, blockno, write);
      availIdx := (availIdx + 1) % WRAP;
      t := Publish(s', r.h, r.d1, r.d2, r.b, blockno, write).t;
    }

    /** The three descriptors, the command header and the bookkeeping of a request. */
    method Format(blockno: nat, write: bool, r: Order, moves: nat -> seq<Move>, ghost s: St) returns (ghost s': St)
      requires Good(s) && Holds(s) && Making(s, S(), r)
      modifies this`desc, this`ops, this`info, this`busy, this`used, this`usedIdx, this`devIdx, this`held, this`t
      ensures Good(s') && Holds(s') && DeviceMoved(s, s') && Making(s', S(), r) && Distinct3(r) && Lengths(S())
      ensures desc[r.h] == Desc(Header(r.h), 16, false, true, r.d1) && desc[r.d1] == Desc(Data(r.b), 1024, !write, true, r.d2)
      ensures desc[r.d2] == Desc(Status(r.h), 1, true, false, 0)
      ensures ops[r.h] == Op(write, 2 * blockno) && info[r.h] == Info(Some(r.b), 255) && r.b in busy
    {
      hide Good, Holds, Shape, Making, DeviceMoved, CanPublish;
      s' := FormatData(blockno, write, r, moves, s);
      MakingInfo(s', S(), r, info[r.h].(status := 255));
      info := info[r.h := info[r.h].(status := 255)];
      s' := DeviceMoves(moves(3), s, s', Some(r));
      MakingDesc(s', S(), r, r.d2, Desc(Status(r.h), 1, true, false, 0));
      desc := desc[r.d2 := Desc(Status(r.h), 1, true, false, 0)];
      s' := DeviceMoves(moves(4), s, s', Some(r));
      MakingBusy(s', S(), r);
      busy := busy + {r.b};
      s' := DeviceMoves(moves(5), s, s', Some(r));
      MakingInfo(s', S(), r, info[r.h].(b := Some(r.b)));
      info := info[r.h := info[r.h].(b := Some(r.b))];
      s' := DeviceMoves(moves(6), s, s', Some(r));
      MakingParts(s', S(), r);
    }

    /** The command header and the descriptors for it and for the data. */
    method FormatData(blockno: nat, write: bool, r: Order, moves: nat -> seq<Move>, ghost s: St) returns (ghost s': St)
      requires Good(s) && Holds(s) && Making(s, S(), r)
      modifies this`desc, this`ops, this`info, this`used, this`usedIdx, this`devIdx, this`held, this`t
      ensures Good(s') && Holds(s') && DeviceMoved(s, s') && Making(s', S(), r) && Distinct3(r) && Lengths(S())
      ensures desc[r.h] == Desc(Header(r.h), 16, false, true, r.d1) && desc[r.d1] == Desc(Data(r.b), 1024, !write, true, r.d2)
      ensures ops[r.h] == Op(write, 2 * blockno)
    {
      hide Good, Holds, Shape, Making, DeviceMoved, CanPublish;
      MakingParts(s, S(), r);
      Still(s);
      MakingOp(s, S(), r, Op(write, 2 * blockno));
      ops := ops[r.h := Op(write, 2 * blockno)];
      s' := DeviceMoves(moves(0), s, s, Some(r));
      MakingDesc(s', S(), r, r.h, Desc(Header(r.h), 16, false, true, r.d1));
      desc := desc[r.h := Desc(Header(r.h), 16, false, true, r.d1)];
      s' := DeviceMoves(moves(1), s, s', Some(r));
      MakingDesc(s', S(), r, r.d1, Desc(Data(r.b), 1024, !write, true, r.d2));
      desc := desc[r.d1 := Desc(Data(r.b), 1024, !write, true, r.d2)];
      s' := DeviceMoves(moves(2), s, s', Some(r));
      MakingParts(s', S(), r);
    }

    /** The rest of virtio_disk_rw, once the interrupt handler has cleared `b->disk`. */
    method Finish(h: nat)
      requires Valid() && h in t.reqs && t.reqs[h].b !in busy
      modifies this
      ensures Valid() && t.reqs == old(t.reqs) - {h} && t.got == old(t.got) && t.given == old(t.given)
      ensures old(t.reqs)[h].id in t.got && t.got[old(t.reqs)[h].id] == old(t.reqs)[h].b
    {
      hide Good, Shape;
      ghost var s, r := S(), t.reqs[h];
      GoodShape(s);
      FinishFacts(s, h);
      DropGood(s, h);
      info := info[h := info[h].(b := None)];
      FreeChain(h, r.d1, r.d2);
      t := Drop(s, h).t;
      assert S() == Drop(s, h);
    }

    /** virtio_disk_intr, with the device moving after each test of the loop: `moves[i]` in turn `i`.
        What the device completes meanwhile is handled as well, or left to the next interrupt. The
        panic on a bad status is not reachable. */
    method Intr(moves: seq<seq<Move>>)
      requires Valid()
      modifies this`busy, this`seen, this`info, this`used, this`usedIdx, this`devIdx, this`held, this`t
      ensures Valid() && seen == usedIdx && t.given == old(t.given) && busy <= old(busy)
      ensures forall id | id in old(t.got) :: id in t.got && t.got[id] == old(t.got)[id]
      ensures t.reqs.Keys == old(t.reqs.Keys)
      ensures forall h | h in t.reqs :: Later(old(t.reqs)[h], t.reqs[h]) && !t.reqs[h].phase.Used?
    {
      hide Good, Later, Progress, See, Making;
      ghost var s0 := S();
      Unchanged(s0);
      var n := 0;
      while seen != usedIdx
        invariant Valid() && n <= |moves| && Progress(s0, S())
        decreases |moves| - n, t.nU - t.nS
      {
        if n < |moves| {
          ghost var s1 := S();
          Still(s1);
          ghost var s2 := DeviceMoves(moves[n], s1, s1, None);
          ProgressTrans(s0, s1, S());
          StillUnseen(s1, S());
          n := n + 1;
        }
        ghost var s := S();
        SeeNext();
        ProgressTrans(s0, s, S());
      }
      AllSeen(S());
      ProgressParts(s0, S());
    }

    /** One turn of the loop: the next completion is delivered for its buffer. */
    method SeeNext()
      requires Valid() && seen != usedIdx
      modifies this`busy, this`seen, this`t
      ensures Valid() && Progress(old(S()), S()) && t.nS == old(t.nS) + 1 <= t.nU == old(t.nU)
      ensures Shape(old(S())) && old(used[seen % NUM]) in old(t.reqs) && S() == See(old(S()))
      ensures var r := old(t.reqs[used[seen % NUM]]);
              r.id !in old(t.got) && t.got == old(t.got)[r.id := r.b] && busy == old(busy) - {r.b}
    {
      hide Good, Progress;
      ghost var s := S();
      SeeGood(s);
      SeeCounts(s);
      SeeProgress(s);
      var id := used[seen % NUM];
      assert info[id].status == 0;
      var b := info[id].b.value;
      busy := busy - {b};
      seen := (seen + 1) % WRAP;
      t := See(s).t;
      assert S() == See(s);
    }

    // ---- the device --------------------------------------------------------------------------------------

    /** The device's own record of what it has fetched. */
    ghost predicate Holds(s: St)
      reads this`held
    {
      forall h :: h in held <==> h in s.t.reqs && s.t.reqs[h].phase == Fetched
    }

    /** The device moves as it would in state `s`, whatever the driver has written for the request that
        it is making. */
    method DeviceFetch(ghost s: St, ghost r: Option<Order>) returns (ghost s': St)
      requires Good(s) && Holds(s) && Sees(s, S(), r) && devIdx != availIdx
      modifies this`devIdx, this`held, this`t
      ensures Shape(s) && s.avail[s.devIdx % NUM] in s.t.reqs && s' == Fetch(s)
      ensures Good(s') && Holds(s') && Sees(s', S(), r) && DeviceMoved(s, s')
    {
      hide Good, Shape, Making, Progress;
      SeesParts(s, S(), r);
      SeesFetch(s, S(), r);
      s' := Fetch(s);
      t := s'.t;
      held := held + {avail[devIdx % NUM]};
      devIdx := (devIdx + 1) % WRAP;
    }

    /** Any fetched request may be completed next. */
    method DeviceComplete(h: nat, ghost s: St, ghost r: Option<Order>) returns (ghost s': St)
      requires Good(s) && Holds(s) && Sees(s, S(), r) && h in held
      modifies this`info, this`used, this`usedIdx, this`held, this`t
      ensures Shape(s) && h < NUM && h in s.t.reqs && s' == Complete(s, h)
      ensures Good(s') && Holds(s') && Sees(s', S(), r) && DeviceMoved(s, s')
      ensures |info| == |old(info)| && (r.Some? && r.value.h < |info| ==> info[r.value.h] == old(info[r.value.h]))
    {
      hide Good, Shape, Making, Progress;
      SeesParts(s, S(), r);
      SeesComplete(s, S(), r, h);
      s' := Complete(s, h);
      info := info[h := info[h].(status := 0)];
      used := used[usedIdx % NUM := h];
      usedIdx := (usedIdx + 1) % WRAP;
      held := held - {h};
      t := s'.t;
    }

    /** Moves of the device; those that are not possible are skipped. */
    method DeviceMoves(moves: seq<Move>, ghost s0: St, ghost s: St, ghost r: Option<Order>) returns (ghost s': St)
      requires Good(s) && Holds(s) && Sees(s, S(), r) && DeviceMoved(s0, s)
      modifies this`info, this`used, this`usedIdx, this`devIdx, this`held, this`t
      ensures Good(s') && Holds(s') && Sees(s', S(), r) && DeviceMoved(s0, s') && |info| == |old(info)|
      ensures r.Some? && r.value.h < |info| ==> info[r.value.h] == old(info[r.value.h])
    {
      hide Good, Shape, Sees, DeviceMoved;
      s' := s;
      for i := 0 to |moves|
        invariant Good(s') && Holds(s') && Sees(s', S(), r) && DeviceMoved(s0, s') && |info| == |old(info)|
        invariant r.Some? && r.value.h < |info| ==> info[r.value.h] == old(info[r.value.h])
      {
        ghost var s1 := s';
        match moves[i]
        case FetchNext =>
          if devIdx != availIdx {
            s' := DeviceFetch(s1, r);
            MovedTrans(s0, s1, s');
          }
        case Finish(h) =>
          if h in held {
            s' := DeviceComplete(h, s1, r);
            MovedTrans(s0, s1, s');
          }
      }
    }
  }

  /** What the device does next: fetch a request, or complete one that it holds. */
  datatype Move = FetchNext | Finish(h: nat)

  function Rank(p: Phase): nat {
    match p case Queued(_) => 0 case Fetched => 1 case Used(_) => 2 case Seen => 3
  }

  /** The same request, at the same place or further on its way. */
  predicate Later(r: Req, r': Req) {
    r' == r.(phase := r'.phase) && (r'.phase == r.phase || Rank(r.phase) < Rank(r'.phase))
  }

  /** Requests moved on, deliveries were added; nothing else happened. */
  ghost predicate Progress(s: St, s': St) {
    && s'.t.given == s.t.given && s'.busy <= s.busy && s'.t.reqs.Keys == s.t.reqs.Keys
    && (forall id | id in s.t.got :: id in s'.t.got && s'.t.got[id] == s.t.got[id])
    && (forall h | h in s.t.reqs :: Later(s.t.reqs[h], s'.t.reqs[h]))
  }

  lemma Unchanged(s: St)
    ensures Progress(s, s)
  {
  }

  lemma ProgressParts(s: St, s': St)
    requires Progress(s, s')
    ensures s'.t.given == s.t.given && s'.busy <= s.busy && s'.t.reqs.Keys == s.t.reqs.Keys
    ensures forall id | id in s.t.got :: id in s'.t.got && s'.t.got[id] == s.t.got[id]
    ensures forall h | h in s'.t.reqs :: h in s.t.reqs && Later(s.t.reqs[h], s'.t.reqs[h])
  {
  }

  lemma ProgressTrans(a: St, b: St, c: St)
    requires Progress(a, b) && Progress(b, c)
    ensures Progress(a, c)
  {
  }

  /** Only the device moved. */
  ghost predicate DeviceMoved(s: St, s': St) {
    && Progress(s, s') && s'.t.got == s.t.got && s'.t.nA == s.t.nA && s'.t.nS == s.t.nS && s'.t.nU >= s.t.nU
    && s'.free == s.free && s'.busy == s.busy
  }

  lemma Still(s: St)
    ensures DeviceMoved(s, s)
  {
  }

  lemma MovedTrans(a: St, b: St, c: St)
    requires DeviceMoved(a, b) && DeviceMoved(b, c)
    ensures DeviceMoved(a, c)
  {
    hide Progress;
    ProgressTrans(a, b, c);
  }

  lemma FetchMoves(s: St)
    requires Good(s) && s.devIdx != s.availIdx
    ensures Shape(s) && s.avail[s.devIdx % NUM] in s.t.reqs && DeviceMoved(s, Fetch(s))
  {
    FetchGood(s);
  }

  lemma CompleteMoves(s: St, h: nat)
    requires Shape(s) && h in s.t.reqs && h < NUM && s.t.reqs[h].phase == Fetched
    ensures DeviceMoved(s, Complete(s, h))
  {
  }

  lemma SeeProgress(s: St)
    requires Good(s) && s.seen != s.usedIdx
    ensures Shape(s) && s.used[s.seen % NUM] in s.t.reqs && Progress(s, See(s))
  {
    SeeGood(s);
  }

  /** Entries that were unread stay so while the device moves. */
  lemma StillUnseen(s: St, s': St)
    requires Good(s) && Good(s') && s.seen != s.usedIdx && s'.t.nS == s.t.nS && s'.t.nU >= s.t.nU
    ensures s'.seen != s'.usedIdx
  {
    RingsShort(s);
    RingsShort(s');
  }

  // ---- the device while a request is being made --------------------------------------------------------

  lemma StillCanPublish(s: St, x: nat, h: nat, d1: nat, d2: nat, b: nat)
    requires Good(s) && CanPublish(s, h, d1, d2, b) && x in s.t.reqs && s.t.reqs[x].phase == Fetched
    ensures x < NUM && x != h && CanPublish(Complete(s, x), h, d1, d2, b)
    ensures Lengths(s) && h < NUM && d1 < NUM && d2 < NUM
  {
    hide Good;
    CompleteGood(s, x);
    GoodShape(Complete(s, x));
    PublishOwn(s, h, d1, d2);
  }

  predicate Lengths(s: St) { |s.free| == |s.desc| == |s.ops| == |s.info| == |s.avail| == |s.used| == NUM }

  /** The request that the driver is making. */
  datatype Order = Order(h: nat, d1: nat, d2: nat, b: nat)

  predicate Distinct3(r: Order) { r.h < NUM && r.d1 < NUM && r.d2 < NUM && r.h != r.d1 && r.h != r.d2 && r.d1 != r.d2 }

  /** Memory `m` is that of `s`, except that the driver took three free descriptors and wrote anything
      to them, to their header and bookkeeping, to the flag of its buffer, and to the entry of the
      avail ring that it has not offered yet. */
  ghost predicate Making(s: St, m: St, r: Order) {
    && CanPublish(s, r.h, r.d1, r.d2, r.b) && Lengths(m)
    && m == s.(free := m.free, desc := m.desc, ops := m.ops, info := m.info, avail := m.avail, busy := m.busy)
    && m.free == s.free[r.h := false][r.d1 := false][r.d2 := false]
    && (forall i | 0 <= i < NUM && i != r.h && i != r.d1 && i != r.d2 :: m.desc[i] == s.desc[i])
    && (forall i | 0 <= i < NUM && i != r.h :: m.ops[i] == s.ops[i] && m.info[i] == s.info[i])
    && (forall k | 0 <= k < NUM && k != s.availIdx % NUM :: m.avail[k] == s.avail[k])
    && s.busy <= m.busy <= s.busy + {r.b}
  }

  /** Between two requests the device sees all there is. */
  ghost predicate Sees(s: St, m: St, r: Option<Order>) { if r.None? then m == s else Making(s, m, r.value) }

  lemma SeesParts(s: St, m: St, r: Option<Order>)
    requires Good(s) && Sees(s, m, r)
    ensures Lengths(m) && m.devIdx == s.devIdx && m.availIdx == s.availIdx && m.usedIdx == s.usedIdx
            && m.t == s.t && m.used == s.used
  {
  }

  /** The device reads the same entry of the avail ring, and the rest of the driver's writes stay
      out of its way. */
  lemma SeesFetch(s: St, m: St, r: Option<Order>)
    requires Good(s) && Sees(s, m, r) && s.devIdx != s.availIdx && Lengths(m)
    ensures Shape(s) && s.avail[s.devIdx % NUM] in s.t.reqs && m.avail[s.devIdx % NUM] == s.avail[s.devIdx % NUM]
    ensures var s' := Fetch(s);
            Good(s') && DeviceMoved(s, s') && Sees(s', m.(devIdx := s'.devIdx, t := s'.t), r)
  {
    hide Good, Progress;
    GoodShape(s);
    FetchGood(s);
    GoodShape(Fetch(s));
    FetchMoves(s);
    NextSlots(s);
  }

  lemma SeesComplete(s: St, m: St, r: Option<Order>, x: nat)
    requires Good(s) && Sees(s, m, r) && x in s.t.reqs && s.t.reqs[x].phase == Fetched && Lengths(m)
    ensures x < NUM && Shape(s) && (r.Some? ==> x != r.value.h)
    ensures var s' := Complete(s, x);
            && Good(s') && DeviceMoved(s, s')
            && Sees(s', m.(info := m.info[x := m.info[x].(status := 0)], used := s'.used, usedIdx := s'.usedIdx, t := s'.t), r)
  {
    hide Good, Progress;
    GoodShape(s);
    CompleteGood(s, x);
    GoodShape(Complete(s, x));
    CompleteMoves(s, x);
    if r.Some? { StillCanPublish(s, x, r.value.h, r.value.d1, r.value.d2, r.value.b); }
  }

  lemma MakingStart(s: St, h: nat, d1: nat, d2: nat, b: nat)
    requires CanPublish(s, h, d1, d2, b)
    ensures Making(s, s.(free := s.free[h := false][d1 := false][d2 := false]), Order(h, d1, d2, b))
  {
  }

  lemma MakingParts(s: St, m: St, r: Order)
    requires Making(s, m, r)
    ensures CanPublish(s, r.h, r.d1, r.d2, r.b) && Lengths(m) && Distinct3(r)
  {
  }

  lemma MakingOp(s: St, m: St, r: Order, v: Op)
    requires Making(s, m, r)
    ensures Distinct3(r) && Lengths(m) && Making(s, m.(ops := m.ops[r.h := v]), r)
  {
    hide Shape;
  }

  lemma MakingDesc(s: St, m: St, r: Order, i: nat, v: Desc)
    requires Making(s, m, r) && (i == r.h || i == r.d1 || i == r.d2)
    ensures Distinct3(r) && Lengths(m) && Making(s, m.(desc := m.desc[i := v]), r)
  {
    hide Shape;
  }

  lemma MakingInfo(s: St, m: St, r: Order, v: Info)
    requires Making(s, m, r)
    ensures Distinct3(r) && Lengths(m) && Making(s, m.(info := m.info[r.h := v]), r)
  {
    hide Shape;
  }

  lemma MakingBusy(s: St, m: St, r: Order)
    requires Making(s, m, r)
    ensures Making(s, m.(busy := m.busy + {r.b}), r)
  {
    hide Shape;
  }

  lemma MakingAvail(s: St, m: St, r: Order)
    requires Making(s, m, r)
    ensures Lengths(m) && m.availIdx == s.availIdx && Making(s, m.(avail := m.avail[m.availIdx % NUM := r.h]), r)
  {
    hide Shape;
  }

  /** Once everything is written, the new index publishes the request. */
  lemma MakingDone(s: St, m: St, r: Order, blockno: nat, write: bool)
    requires Making(s, m, r) && Distinct3(r) && Lengths(m)
    requires m.desc[r.h] == Desc(Header(r.h), 16, false, true, r.d1) && m.desc[r.d1] == Desc(Data(r.b), 1024, !write, true, r.d2)
    requires m.desc[r.d2] == Desc(Status(r.h), 1, true, false, 0)
    requires m.ops[r.h] == Op(write, 2 * blockno) && m.info[r.h] == Info(Some(r.b), 255) && r.b in m.busy
    requires m.avail[m.availIdx % NUM] == r.h
    ensures CanPublish(s, r.h, r.d1, r.d2, r.b)
    ensures var s' := Publish(s, r.h, r.d1, r.d2, r.b, blockno, write);
            m.(availIdx := (m.availIdx + 1) % WRAP, t := s'.t) == s'
  {
    hide Shape;
    ShapeLengths(s) by { MakingShape(s, m, r); }
    var s' := Publish(s, r.h, r.d1, r.d2, r.b, blockno, write);
    assert m.desc == s'.desc && m.ops == s'.ops && m.info == s'.info && m.avail == s'.avail;
  }

  lemma MakingShape(s: St, m: St, r: Order)
    requires Making(s, m, r)
    ensures Shape(s)
  {
  }

  lemma PublishProgress(s: St, s': St, h: nat, d1: nat, d2: nat, b: nat, blockno: nat, write: bool)
    requires Good(s') && DeviceMoved(s, s') && CanPublish(s', h, d1, d2, b)
    ensures var t := Publish(s', h, d1, d2, b, blockno, write).t;
            && h !in s.t.reqs && t.reqs.Keys == s.t.reqs.Keys + {h} && forall x | x in s.t.reqs :: Later(s.t.reqs[x], t.reqs[x])
    ensures s'.t.nA == s.t.nA && s'.t.given == s.t.given && s'.t.got == s.t.got && s'.free == s.free
  {
    PublishOwn(s', h, d1, d2);
  }

  /** A completion while the driver formats a request has the same outcome as one before or after:
      the chain of a request in flight is not touched by the new one. */
  lemma PublishComplete(s: St, x: nat, h: nat, d1: nat, d2: nat, b: nat, blockno: nat, write: bool)
    requires Good(s) && CanPublish(s, h, d1, d2, b) && x in s.t.reqs && s.t.reqs[x].phase == Fetched
    ensures x < NUM && CanPublish(Complete(s, x), h, d1, d2, b)
    ensures var s' := Publish(s, h, d1, d2, b, blockno, write);
            && Shape(s') && x in s'.t.reqs && s'.t.reqs[x].phase == Fetched
            && Complete(s', x) == Publish(Complete(s, x), h, d1, d2, b, blockno, write)
  {
    hide Good, Shape, CanPublish;
    StillCanPublish(s, x, h, d1, d2, b);
    PublishGood(s, h, d1, d2, b, blockno, write);
    GoodShape(Publish(s, h, d1, d2, b, blockno, write));
    Swapped(s.info, x, h, Info(Some(b), 255), s.info[x].(status := 0));
  }

  /** Updates at different places may change places. */
  lemma Swapped(info: seq<Info>, x: nat, h: nat, u: Info, v: Info)
    requires x < |info| && h < |info| && x != h
    ensures info[h := u][x := v] == info[x := v][h := u]
  {
  }

  lemma GoodShape(s: St)
    requires Good(s)
    ensures Shape(s) && Lengths(s)
  {
  }

  /** The entry that the device reads next is not the one that the driver writes next. */
  lemma NextSlots(s: St)
    requires Good(s) && s.devIdx != s.availIdx
    ensures s.t.nD < s.t.nA && s.devIdx % NUM != s.availIdx % NUM
  {
    RingsShort(s);
    WrapRing(s.t.nA);
    WrapRing(s.t.nD);
    SlotApart(s.t.nD, s.t.nA);
  }

  lemma PublishNext(s: St, h: nat, d1: nat, d2: nat, b: nat, blockno: nat, write: bool)
    requires Good(s) && CanPublish(s, h, d1, d2, b) && s.devIdx != s.availIdx
    ensures Lengths(s) && s.avail[s.devIdx % NUM] in s.t.reqs && s.avail[s.devIdx % NUM] != h
    ensures var s' := Publish(s, h, d1, d2, b, blockno, write);
            && Shape(s') && s'.devIdx == s.devIdx != s'.availIdx
            && s'.avail[s.devIdx % NUM] == s.avail[s.devIdx % NUM]
  {
    hide Good, Shape;
    GoodShape(s);
    Requested(s, h, d1, d2, b);
    PublishGood(s, h, d1, d2, b, blockno, write);
    GoodShape(Publish(s, h, d1, d2, b, blockno, write));
    NextSlots(s);
    Pending(Publish(s, h, d1, d2, b, blockno, write));
  }

  lemma Requested(s: St, h: nat, d1: nat, d2: nat, b: nat)
    requires Good(s) && CanPublish(s, h, d1, d2, b) && s.devIdx != s.availIdx
    ensures Lengths(s) && s.avail[s.devIdx % NUM] in s.t.reqs && s.avail[s.devIdx % NUM] != h
  {
    FetchGood(s);
    PublishOwn(s, h, d1, d2);
  }

  lemma Pending(s: St)
    requires Good(s)
    ensures s.t.nD < s.t.nA ==> s.devIdx != s.availIdx
  {
    RingsShort(s);
  }

  /** Likewise for the fetching of an earlier request. */
  lemma PublishFetch(s: St, h: nat, d1: nat, d2: nat, b: nat, blockno: nat, write: bool)
    requires Good(s) && CanPublish(s, h, d1, d2, b) && s.devIdx != s.availIdx
    ensures s.avail[s.devIdx % NUM] in s.t.reqs && CanPublish(Fetch(s), h, d1, d2, b)
    ensures var s' := Publish(s, h, d1, d2, b, blockno, write);
            && Shape(s') && s'.devIdx != s'.availIdx && s'.avail[s'.devIdx % NUM] in s'.t.reqs
            && Fetch(s') == Publish(Fetch(s), h, d1, d2, b, blockno, write)
  {
    hide Good;
    PublishNext(s, h, d1, d2, b, blockno, write);
    FetchGood(s);
    GoodShape(Fetch(s));
  }

  /** The descriptors `idx` were taken from `free`, one after the other. */
  ghost predicate Taken(free: seq<bool>, free': seq<bool>, idx: seq<nat>) {
    && |free'| == |free| && (forall i | 0 <= i < |idx| :: idx[i] < |free| && free[idx[i]])
    && (forall i, j | 0 <= i < j < |idx| :: idx[i] != idx[j])
    && (forall k | 0 <= k < |free| :: free'[k] == (free[k] && k !in idx))
  }

  lemma NoneTaken(free: seq<bool>)
    ensures Taken(free, free, [])
  {
  }

  lemma TakenParts(free: seq<bool>, free': seq<bool>, idx: seq<nat>)
    requires Taken(free, free', idx)
    ensures |free'| == |free| && (forall i | 0 <= i < |idx| :: idx[i] < |free| && free[idx[i]])
    ensures forall i, j | 0 <= i < j < |idx| :: idx[i] != idx[j]
    ensures forall k | 0 <= k < |free| :: free'[k] == (free[k] && k !in idx)
  {
  }

  lemma TakenMore(free: seq<bool>, free': seq<bool>, idx: seq<nat>, d: nat)
    requires Taken(free, free', idx) && d < |free'| && free'[d]
    ensures Taken(free, free'[d := false], idx + [d])
  {
  }

  lemma TakenNext(free: seq<bool>, free': seq<bool>, idx: seq<nat>)
    requires Taken(free, free', idx) && idx != []
    ensures idx[0] < |free'| && !free'[idx[0]] && free[idx[0]] && Taken(free, free'[idx[0] := true], idx[1..])
  {
    assert idx[0] in idx;
    forall k | 0 <= k < |free| ensures free'[idx[0] := true][k] == (free[k] && k !in idx[1..]) {
      if k != idx[0] { assert k in idx <==> k in idx[1..]; }
    }
  }

  lemma FreeLess(free: seq<bool>, d: nat)
    requires d < |free| && free[d]
    ensures |FreeSet(free[d := false])| == |FreeSet(free)| - 1
  {
    assert FreeSet(free[d := false]) == FreeSet(free) - {d};
  }

  lemma FreeBlank(s: St)
    requires Good(s)
    ensures Shape(s) && forall i | 0 <= i < NUM && s.free[i] :: s.desc[i] == BLANK
  {
    forall i | 0 <= i < NUM && s.free[i] ensures s.desc[i] == BLANK {
      assert DescAt(s, i);
    }
  }

  lemma Requestable(s: St, h: nat, d1: nat, d2: nat, b: nat)
    requires Good(s) && h < NUM && d1 < NUM && d2 < NUM && h != d1 && h != d2 && d1 != d2 && Lengths(s)
    requires s.free[h] && s.free[d1] && s.free[d2] && forall x | x in s.t.reqs :: s.t.reqs[x].b != b
    ensures CanPublish(s, h, d1, d2, b)
  {
  }

  lemma PublishNew(s: St, h: nat, d1: nat, d2: nat, b: nat, blockno: nat, write: bool)
    requires Good(s) && CanPublish(s, h, d1, d2, b)
    ensures var t := Publish(s, h, d1, d2, b, blockno, write).t;
            && |t.reqs| == |s.t.reqs| + 1 && t.given == s.t.given[s.t.nA := b] && t.got == s.t.got
            && h in t.reqs && t.reqs[h].b == b && t.reqs[h].write == write && t.reqs[h].id == s.t.nA
  {
    PublishOwn(s, h, d1, d2);
  }

  lemma FetchedSame(s: St, h: nat, d1: nat, d2: nat, b: nat, blockno: nat, write: bool)
    requires Good(s) && CanPublish(s, h, d1, d2, b)
    ensures var t := Publish(s, h, d1, d2, b, blockno, write).t;
            forall x :: x in t.reqs && t.reqs[x].phase == Fetched <==> x in s.t.reqs && s.t.reqs[x].phase == Fetched
  {
    PublishOwn(s, h, d1, d2);
  }

  /** A requester that finds `b->disk` cleared has a delivered request and an intact chain. */
  lemma FinishFacts(s: St, h: nat)
    requires Good(s) && h in s.t.reqs && s.t.reqs[h].b !in s.busy
    ensures Shape(s) && s.t.reqs[h].phase == Seen && s.t.reqs[h].id in s.t.got && s.t.got[s.t.reqs[h].id] == s.t.reqs[h].b
    ensures var r := s.t.reqs[h];
            && h < NUM && r.d1 < NUM && r.d2 < NUM && h != r.d1 && h != r.d2 && r.d1 != r.d2
            && !s.free[h] && !s.free[r.d1] && !s.free[r.d2]
            && s.desc[h].chained && s.desc[h].next == r.d1 && s.desc[r.d1].chained && s.desc[r.d1].next == r.d2
            && !s.desc[r.d2].chained
  {
    hide PhaseAt, QueuedAt, UsedAt, BufAt;
    assert IdAt(s, h) && ChainAt(s, h);
    var r := s.t.reqs[h];
    assert DescAt(s, h) && DescAt(s, r.d1) && DescAt(s, r.d2) && NumberAt(s, r.id);
  }

  lemma SeeCounts(s: St)
    requires Good(s) && s.seen != s.usedIdx
    ensures Shape(s) && s.t.nS < s.t.nU
  {
    RingsShort(s);
  }

  /** With the used ring read to its end no request is left in it. */
  lemma AllSeen(s: St)
    requires Good(s) && s.seen == s.usedIdx
    ensures forall h | h in s.t.reqs :: !s.t.reqs[h].phase.Used?
  {
    RingsShort(s);
    forall h | h in s.t.reqs ensures !s.t.reqs[h].phase.Used? {
      assert PhaseAt(s, h);
    }
  }

  /** Every request ever made was delivered for its own buffer, or is in flight and undelivered;
      delivered requests are never delivered again, as SeeGood says of each delivery. */
  lemma DeliveredOrInFlight(s: St, id: nat)
    requires Good(s) && id < s.t.nA
    ensures id in s.t.given && (id in s.t.got ==> s.t.got[id] == s.t.given[id])
    ensures id !in s.t.got ==>
            exists h :: h in s.t.reqs && s.t.reqs[h].id == id && !s.t.reqs[h].phase.Seen? && s.t.reqs[h].b in s.busy
  {
    assert NumberAt(s, id);
    if id !in s.t.got {
      assert IdAt(s, s.t.head[id]);
    }
  }

  /** A free descriptor belongs to no chain, and one that is not free to exactly one. */
  lemma FreeOrOwned(s: St, i: nat)
    requires Good(s) && i < NUM
    ensures s.free[i] <==> forall h | h in s.t.reqs :: i != h && i != s.t.reqs[h].d1 && i != s.t.reqs[h].d2
    ensures forall h, h' | h in s.t.reqs && h' in s.t.reqs && i in {h, s.t.reqs[h].d1, s.t.reqs[h].d2}
              && i in {h', s.t.reqs[h'].d1, s.t.reqs[h'].d2} :: h == h'
  {
    assert DescAt(s, i);
    forall h | h in s.t.reqs ensures i in {h, s.t.reqs[h].d1, s.t.reqs[h].d2} ==> i in s.t.own && s.t.own[i] == h {
      assert ChainAt(s, h);
    }
  }
}
