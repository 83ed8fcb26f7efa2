/**
 The virtio disk driver's descriptor table and rings (kernel/virtio_disk.c), with a device that
 conforms to sections 2.6 and 5.2 of VirtIO 1.1 working beside it.

 Driver code runs under vdisk_lock, so each of its regions is one step; the device takes and
 completes requests between any two of them.
 */
module VirtioDisks {
  import opened Finite
  import Blocks

  const NUM: nat := 8
  const WRAP: nat := 0x1_0000  // ring indices are 16 bits wide

  /** blockno * (BSIZE / 512), in the 32 bits of blockno. */
  function Sector(blockno: nat): nat { blockno * (Blocks.BSIZE / 512) % Blocks.UINT }

  datatype Address = Nothing | OpOf(i: nat) | DataOf(b: nat) | StatusOf(i: nat)
  datatype Desc = Desc(addr: Address, len: nat, hasNext: bool, deviceWrites: bool, next: nat)
  datatype Op = Op(write: bool, sector: nat)
  datatype Info = Info(b: int, status: nat)  // b is -1 for none

  /** What driver and device share, and the driver's own bookkeeping. */
  datatype Queue = Queue(
    free: seq<bool>, desc: seq<Desc>, ops: seq<Op>, info: seq<Info>,
    avail: seq<nat>, availIdx: nat, used: seq<nat>, usedIdx: nat, seen: nat,
    busy: set<int>)  // the buffers with disk == 1

  predicate Sized(s: Queue) {
    |s.free| == NUM == |s.desc| && |s.ops| == NUM == |s.info| && |s.avail| == NUM == |s.used|
  }

  // ---------------------------------------------------------------- requests in flight

  datatype Request = Request(write: bool, sector: nat, b: nat)

  /** How far a request is: offered at a position of the avail ring, with the device, at a position of the used ring,
      or finished. */
  datatype Stage = Offered(pos: nat) | Working | Finished(pos: nat) | Done

  datatype Flight = Flight(d1: nat, d2: nat, req: Request, stage: Stage)

  /** Requests by head descriptor, and how many were ever offered, taken, finished and seen. */
  datatype Ghost = Ghost(flights: map<nat, Flight>, offered: nat, taken: nat, finished: nat, seen: nat)

  predicate PartOf(g: Ghost, h: nat, i: nat) {
    h in g.flights && (i == h || i == g.flights[h].d1 || i == g.flights[h].d2)
  }

  /** What the device makes of a chain: a request to write the disk or to read it from this sector on, with so many
      bytes
      of data at an address that it may write or only read, and where the status byte goes. */
  datatype Chain = Malformed | Chain(write: bool, sector: nat, data: Address, len: nat, mayWrite: bool, status: Address)

  /** Section 5.2's header, data and status, in three descriptors: a header to read and a byte to write at the end. */
  function Decode(s: Queue, h: nat): Chain
    requires Sized(s) && h < NUM
  {
    var d0 := s.desc[h];
    if !d0.hasNext || d0.deviceWrites || d0.len != 16 || !d0.addr.OpOf? || d0.addr.i >= NUM ||
      d0.next >= NUM then Malformed
    else
      var op, d1 := s.ops[d0.addr.i], s.desc[d0.next];
      if !d1.hasNext || d1.next >= NUM then Malformed
      else
        var d2 := s.desc[d1.next];
        if d2.hasNext || !d2.deviceWrites || d2.len != 1 then Malformed
        else Chain(op.write, op.sector, d1.addr, d1.len, d1.deviceWrites, d2.addr)
  }

  predicate ChainGood(s: Queue, h: nat, f: Flight)
    requires Sized(s)
  {
    h < NUM && f.d1 < NUM && f.d2 < NUM && h != f.d1 && h != f.d2 && f.d1 != f.d2 &&
    !s.free[h] && !s.free[f.d1] && !s.free[f.d2] &&
    s.desc[h] == Desc(OpOf(h), 16, true, false, f.d1) &&
    s.desc[f.d1] == Desc(DataOf(f.req.b), Blocks.BSIZE, true, !f.req.write, f.d2) &&
    s.desc[f.d2] == Desc(StatusOf(h), 1, false, true, 0) &&
    s.ops[h] == Op(f.req.write, f.req.sector)
  }

  predicate StageGood(s: Queue, g: Ghost, h: nat, f: Flight)
    requires Sized(s) && h < NUM
  {
    s.info[h].b == f.req.b && (f.stage.Done? <==> f.req.b !in s.busy) &&
    match f.stage
    case Offered(pos) => g.taken <= pos < g.offered && s.avail[pos % NUM] == h
    case Working => true
    case Finished(pos) => g.seen <= pos < g.finished && s.used[pos % NUM] == h && s.info[h].status == 0
    case Done => s.info[h].status == 0
  }

  predicate FlightGood(s: Queue, g: Ghost, h: nat)
    requires Sized(s)
  {
    h in g.flights ==> ChainGood(s, h, g.flights[h]) && StageGood(s, g, h, g.flights[h])
  }

  /** Two requests share no descriptor and no buffer. */
  predicate Apart(g: Ghost, h: nat, k: nat) {
    h in g.flights && k in g.flights && h != k ==>
      g.flights[h].req.b != g.flights[k].req.b && forall i :: 0 <= i < NUM ==> !(PartOf(g, h, i) && PartOf(g, k, i))
  }

  /** A descriptor is free or part of a request. */
  predicate DescGood(s: Queue, g: Ghost, i: nat)
    requires Sized(s)
  {
    i < NUM && !s.free[i] ==> exists h :: 0 <= h < NUM && PartOf(g, h, i)
  }

  /** Each unconsumed place of a ring names a request. */
  predicate AvailGood(s: Queue, g: Ghost, pos: nat)
    requires Sized(s)
  {
    g.taken <= pos < g.offered ==>
      s.avail[pos % NUM] in g.flights && g.flights[s.avail[pos % NUM]].stage == Offered(pos)
  }

  predicate UsedGood(s: Queue, g: Ghost, pos: nat)
    requires Sized(s)
  {
    g.seen <= pos < g.finished ==> s.used[pos % NUM] in g.flights && g.flights[s.used[pos % NUM]].stage == Finished(pos)
  }

  function CountFree(free: seq<bool>): nat {
    if free == [] then 0 else (if free[0] then 1 else 0) + CountFree(free[1..])
  }

  predicate Counted(s: Queue, g: Ghost) {
    g.taken <= g.offered && g.seen <= g.finished && CountFree(s.free) + 3 * |g.flights| == NUM
  }

  predicate Indices(s: Queue, g: Ghost) {
    s.availIdx == g.offered % WRAP && s.usedIdx == g.finished % WRAP && s.seen == g.seen % WRAP
  }

  ghost predicate Inv(s: Queue, g: Ghost) {
    Sized(s) && Counted(s, g) && Indices(s, g) &&
    (forall h: nat :: FlightGood(s, g, h)) && (forall h: nat, k: nat :: Apart(g, h, k)) &&
    (forall i: nat :: DescGood(s, g, i)) && (forall pos: nat :: AvailGood(s, g, pos)) &&
    forall pos: nat :: UsedGood(s, g, pos)
  }

  /** In a good state the device reads off the descriptors exactly the request that was made: 1024 bytes of its buffer,
      which the device may write exactly when the disk is to be read, and the status byte of the head. */
  lemma DeviceSeesRequest(s: Queue, g: Ghost, h: nat)
    requires Inv(s, g) && h in g.flights
    ensures var req := g.flights[h].req;
            h < NUM && Decode(s, h) == Chain(req.write, req.sector, DataOf(req.b), 1024, !req.write, StatusOf(h))
  {
    assert FlightGood(s, g, h);
  }

  /** A sector number is right exactly for blocks whose sectors can be numbered with 32 bits. */
  lemma SectorIff(blockno: nat)
    requires blockno < 0x1_0000_0000
    ensures 512 * Sector(blockno) == 1024 * blockno <==> blockno < 0x8000_0000
  {
  }

  /** What a device does with a well-formed chain, its bytes and those of the buffer; false if the chain asks for
      sectors it
      does not have or for a transfer that its descriptors do not allow. */
  function Serve(disk: seq<nat>, data: seq<nat>, c: Chain): (seq<nat>, seq<nat>, bool)
    requires c.Chain?
  {
    var at := 512 * c.sector;
    if at + c.len > |disk| || |data| != c.len || c.write == c.mayWrite then (disk, data, false)
    else if c.write then (disk[..at] + data + disk[at + c.len..], data, true)
    else (disk, disk[at..at + c.len], true)
  }

  /** A request for a block of the disk moves that block and nothing else: into the buffer, or the buffer into it. */
  lemma BlockServed(s: Queue, g: Ghost, h: nat, blockno: nat, disk: seq<nat>, data: seq<nat>)
    requires Inv(s, g) && h in g.flights && g.flights[h].req.sector == Sector(blockno)
    requires blockno < 0x8000_0000 && 1024 * (blockno + 1) <= |disk| && |data| == 1024
    ensures h < NUM && Decode(s, h).Chain?
    ensures var lo, hi := 1024 * blockno, 1024 * (blockno + 1);
            Serve(disk, data, Decode(s, h)) ==
            if g.flights[h].req.write then (disk[..lo] + data + disk[hi..], data, true) else (disk, disk[lo..hi], true)
  {
    DeviceSeesRequest(s, g, h);
    SectorIff(blockno);
  }

  // ---------------------------------------------------------------- room in the rings

  function Heads(ring: seq<nat>, start: nat, k: nat): set<nat>
    requires |ring| == NUM
  {
    if k == 0 then {} else Heads(ring, start, k - 1) + {ring[(start + k - 1) % NUM]}
  }

  lemma {:induction false} AvailHeads(s: Queue, g: Ghost, k: nat)
    requires Sized(s) && (forall pos: nat :: AvailGood(s, g, pos)) && k <= g.offered - g.taken
    ensures |Heads(s.avail, g.taken, k)| == k && Heads(s.avail, g.taken, k) <= g.flights.Keys
    ensures forall h :: h in Heads(s.avail, g.taken, k) ==>
              h in g.flights && g.flights[h].stage.Offered? && g.flights[h].stage.pos < g.taken + k
  {
    if k > 0 {
      AvailHeads(s, g, k - 1);
      assert AvailGood(s, g, g.taken + k - 1);
    }
  }

  lemma {:induction false} UsedHeads(s: Queue, g: Ghost, k: nat)
    requires Sized(s) && (forall pos: nat :: UsedGood(s, g, pos)) && k <= g.finished - g.seen
    ensures |Heads(s.used, g.seen, k)| == k && Heads(s.used, g.seen, k) <= g.flights.Keys
    ensures forall h :: h in Heads(s.used, g.seen, k) ==>
              h in g.flights && g.flights[h].stage.Finished? && g.flights[h].stage.pos < g.seen + k
  {
    if k > 0 {
      UsedHeads(s, g, k - 1);
      assert UsedGood(s, g, g.seen + k - 1);
    }
  }

  /** At most two requests are in flight, so no ring is ever more than a quarter full. */
  lemma RingsHaveRoom(s: Queue, g: Ghost)
    requires Inv(s, g)
    ensures |g.flights| <= 2 && g.offered - g.taken <= 2 && g.finished - g.seen <= 2
  {
    AvailHeads(s, g, g.offered - g.taken);
    UsedHeads(s, g, g.finished - g.seen);
    SubsetSize(Heads(s.avail, g.taken, g.offered - g.taken), g.flights.Keys);
    SubsetSize(Heads(s.used, g.seen, g.finished - g.seen), g.flights.Keys);
    assert |g.flights| == |g.flights.Keys|;
  }

  /** A place fewer than NUM positions ahead is another place. */
  lemma OtherPlace(p: nat, q: nat)
    requires p < q < p + NUM
    ensures p % NUM != q % NUM
  {
  }

  lemma ModOf(a: nat, r: nat)
    ensures r < NUM ==> (NUM * a + r) % NUM == r
    ensures r < WRAP ==> (WRAP * a + r) % WRAP == r
  {
  }

  lemma Wrapped(x: nat)
    ensures x % WRAP % NUM == x % NUM && (x % WRAP + 1) % WRAP == (x + 1) % WRAP
  {
    var q, r := x / WRAP, x % WRAP;
    assert x == WRAP * q + r && r == NUM * (r / NUM) + r % NUM;
    assert x == NUM * (8192 * q + r / NUM) + r % NUM;
    ModOf(8192 * q + r / NUM, r % NUM);
    if r + 1 < WRAP {
      assert x + 1 == WRAP * q + (r + 1);
      ModOf(q, r + 1);
    } else {
      assert x + 1 == WRAP * (q + 1) + 0;
      ModOf(q + 1, 0);
    }
  }

  lemma WrappedEqual(x: nat, y: nat)
    requires x <= y <= x + 2
    ensures x % WRAP == y % WRAP <==> x == y
  {
  }

  lemma {:induction false} NoneFree(free: seq<bool>)
    requires forall k :: 0 <= k < |free| ==> !free[k]
    ensures CountFree(free) == 0
  {
    if free != [] {
      NoneFree(free[1..]);
    }
  }

  lemma {:induction false} CountPut(free: seq<bool>, i: nat, v: bool)
    requires i < |free|
    ensures CountFree(free[i := v]) ==
            CountFree(free) + (if v && !free[i] then 1 else 0) - (if !v && free[i] then 1 else 0)
  {
    if i == 0 {
      assert free[i := v][1..] == free[1..];
    } else {
      assert free[i := v][1..] == free[1..][i - 1 := v];
      CountPut(free[1..], i - 1, v);
    }
  }

  // ---------------------------------------------------------------- the device's steps

  function WithStage(g: Ghost, h: nat, t: Stage): Ghost
    requires h in g.flights
  {
    g.(flights := g.flights[h := g.flights[h].(stage := t)])
  }

  function TakeGhost(s: Queue, g: Ghost): Ghost
    requires Sized(s) && s.avail[g.taken % NUM] in g.flights
  {
    WithStage(g, s.avail[g.taken % NUM], Working).(taken := g.taken + 1)
  }

  /** The device takes the next request off the avail ring. */
  lemma TakeInv(s: Queue, g: Ghost)
    requires Inv(s, g) && g.taken < g.offered
    ensures s.avail[g.taken % NUM] in g.flights && Inv(s, TakeGhost(s, g))
  {
    assert AvailGood(s, g, g.taken);
    var g', h := TakeGhost(s, g), s.avail[g.taken % NUM];
    RingsHaveRoom(s, g);
    assert g'.flights.Keys == g.flights.Keys && |g'.flights| == |g'.flights.Keys| && |g.flights| == |g.flights.Keys|;
    forall k: nat ensures FlightGood(s, g', k) {
      assert FlightGood(s, g, k);
    }
    SamePartition(s, g, g');
    forall pos: nat ensures AvailGood(s, g', pos) {
      assert AvailGood(s, g, pos);
      if g.taken < pos < g.offered {
        OtherPlace(g.taken, pos);
      }
    }
    forall pos: nat ensures UsedGood(s, g', pos) {
      assert UsedGood(s, g, pos);
    }
  }

  /** Stages aside, the same requests. */
  lemma SamePartition(s: Queue, g: Ghost, g': Ghost)
    requires Sized(s) && (forall h: nat, k: nat :: Apart(g, h, k)) && (forall i: nat :: DescGood(s, g, i))
    requires forall h: nat :: h in g.flights <==> h in g'.flights
    requires forall h: nat :: h in g.flights ==> g'.flights[h] == g.flights[h].(stage := g'.flights[h].stage)
    ensures (forall h: nat, k: nat :: Apart(g', h, k)) && forall i: nat :: DescGood(s, g', i)
  {
    forall h: nat, k: nat ensures Apart(g', h, k) {
      assert Apart(g, h, k);
      forall i | 0 <= i < NUM && h in g.flights && k in g.flights && h != k
        ensures !(PartOf(g', h, i) && PartOf(g', k, i))
      {
        assert !(PartOf(g, h, i) && PartOf(g, k, i));
      }
    }
    forall i: nat ensures DescGood(s, g', i) {
      assert DescGood(s, g, i);
      if i < NUM && !s.free[i] {
        var h :| 0 <= h < NUM && PartOf(g, h, i);
        assert PartOf(g', h, i);
      }
    }
  }

  function Completed(s: Queue, h: nat): Queue
    requires Sized(s) && h < NUM
  {
    s.(info := s.info[h := s.info[h].(status := 0)], used := s.used[s.usedIdx % NUM := h],
       usedIdx := (s.usedIdx + 1) % WRAP)
  }

  function CompleteGhost(g: Ghost, h: nat): Ghost
    requires h in g.flights
  {
    WithStage(g, h, Finished(g.finished)).(finished := g.finished + 1)
  }

  lemma CompleteFlights(s: Queue, g: Ghost, h: nat, k: nat)
    requires Sized(s) && h in g.flights && g.flights[h].stage == Working && h < NUM && 0 <= g.finished - g.seen <= 2
    requires Indices(s, g) && FlightGood(s, g, h) && FlightGood(s, g, k)
    ensures FlightGood(Completed(s, h), CompleteGhost(g, h), k)
  {
    Wrapped(g.finished);
    if k in g.flights && g.flights[k].stage.Finished? {
      OtherPlace(g.flights[k].stage.pos, g.finished);
    }
  }

  /** The device finishes a request it works on, in whatever order it likes. */
  lemma CompleteInv(s: Queue, g: Ghost, h: nat)
    requires Inv(s, g) && h in g.flights && g.flights[h].stage == Working
    ensures h < NUM && Inv(Completed(s, h), CompleteGhost(g, h))
  {
    assert FlightGood(s, g, h);
    RingsHaveRoom(s, g);
    Wrapped(g.finished);
    var s', g' := Completed(s, h), CompleteGhost(g, h);
    assert g'.flights.Keys == g.flights.Keys && |g'.flights| == |g'.flights.Keys| && |g.flights| == |g.flights.Keys|;
    forall k: nat ensures FlightGood(s', g', k) {
      assert FlightGood(s, g, k);
      CompleteFlights(s, g, h, k);
    }
    SamePartition(s, g, g');
    forall i: nat ensures DescGood(s', g', i) {
      assert DescGood(s, g', i);
    }
    forall pos: nat ensures AvailGood(s', g', pos) {
      assert AvailGood(s, g, pos);
    }
    forall pos: nat ensures UsedGood(s', g', pos) {
      assert UsedGood(s, g, pos);
      if g.seen <= pos < g.finished {
        OtherPlace(pos, g.finished);
      }
    }
  }

  // ---------------------------------------------------------------- the driver's steps

  function SeenOne(s: Queue): Queue
    requires Sized(s) && s.used[s.seen % NUM] < NUM
  {
    s.(busy := s.busy - {s.info[s.used[s.seen % NUM]].b}, seen := (s.seen + 1) % WRAP)
  }

  function SeeGhost(s: Queue, g: Ghost): Ghost
    requires Sized(s) && s.used[g.seen % NUM] in g.flights
  {
    WithStage(g, s.used[g.seen % NUM], Done).(seen := g.seen + 1)
  }

  /** The entry the driver looks at next names a request that the device finished. */
  predicate NextSeen(s: Queue, g: Ghost, h: nat) {
    Sized(s) && s.used[g.seen % NUM] == h && s.used[s.seen % NUM] == h && h < NUM && h in g.flights &&
    g.flights[h].stage == Finished(g.seen) && s.info[h].status == 0 && s.info[h].b in s.busy
  }

  lemma SeeFlights(s: Queue, g: Ghost, h: nat, k: nat)
    requires NextSeen(s, g, h) && FlightGood(s, g, h) && FlightGood(s, g, k) && Apart(g, h, k)
    ensures FlightGood(SeenOne(s), SeeGhost(s, g), k)
  {
  }

  lemma SeeUsed(s: Queue, g: Ghost, h: nat, pos: nat)
    requires NextSeen(s, g, h) && UsedGood(s, g, pos) && g.finished - g.seen <= NUM
    ensures UsedGood(SeenOne(s), SeeGhost(s, g), pos)
  {
    if g.seen < pos < g.finished {
      OtherPlace(g.seen, pos);
    }
  }

  /** virtio_disk_intr looks at one more used entry: a request of its own that succeeded. */
  lemma SeeInv(s: Queue, g: Ghost)
    requires Inv(s, g) && g.seen < g.finished
    ensures s.seen % NUM == g.seen % NUM
    ensures var h := s.used[g.seen % NUM];
            h < NUM && h in g.flights && g.flights[h].stage == Finished(g.seen) && s.info[h].status == 0 &&
            s.info[h].b in s.busy
    ensures Inv(SeenOne(s), SeeGhost(s, g))
  {
    Wrapped(g.seen);
    assert UsedGood(s, g, g.seen);
    var h := s.used[g.seen % NUM];
    assert FlightGood(s, g, h);
    RingsHaveRoom(s, g);
    var s', g' := SeenOne(s), SeeGhost(s, g);
    assert g'.flights.Keys == g.flights.Keys && |g'.flights| == |g'.flights.Keys| && |g.flights| == |g.flights.Keys|;
    forall k: nat ensures FlightGood(s', g', k) {
      assert FlightGood(s, g, k) && Apart(g, h, k);
      SeeFlights(s, g, h, k);
    }
    SamePartition(s, g, g');
    forall i: nat ensures DescGood(s', g', i) {
      assert DescGood(s, g', i);
    }
    forall pos: nat ensures AvailGood(s', g', pos) {
      assert AvailGood(s, g, pos);
    }
    forall pos: nat ensures UsedGood(s', g', pos) {
      assert UsedGood(s, g, pos);
      SeeUsed(s, g, h, pos);
    }
  }

  lemma NoneUnseen(s: Queue, g: Ghost, h: nat)
    requires Sized(s) && FlightGood(s, g, h) && h in g.flights && g.seen == g.finished
    ensures !g.flights[h].stage.Finished?
  {
  }

  /** Three free descriptors and a buffer that no request has. */
  predicate CanSubmit(s: Queue, g: Ghost, h: nat, d1: nat, d2: nat, b: nat) {
    Sized(s) && h < NUM && d1 < NUM && d2 < NUM && h != d1 && h != d2 && d1 != d2 && s.free[h] && s.free[d1] &&
    s.free[d2] &&
    b !in s.busy && forall k: nat :: k in g.flights ==> g.flights[k].req.b != b
  }

  function Submitted(s: Queue, h: nat, d1: nat, d2: nat, req: Request): Queue
    requires Sized(s) && h < NUM && d1 < NUM && d2 < NUM
  {
    Queue(s.free[h := false][d1 := false][d2 := false],
          s.desc[h := Desc(OpOf(h), 16, true, false, d1)]
                [d1 := Desc(DataOf(req.b), Blocks.BSIZE, true, !req.write, d2)]
                [d2 := Desc(StatusOf(h), 1, false, true, 0)],
          s.ops[h := Op(req.write, req.sector)], s.info[h := Info(req.b, 0xff)],
          s.avail[s.availIdx % NUM := h], (s.availIdx + 1) % WRAP, s.used, s.usedIdx, s.seen, s.busy + {req.b})
  }

  function SubmitGhost(g: Ghost, h: nat, d1: nat, d2: nat, req: Request): Ghost {
    g.(flights := g.flights[h := Flight(d1, d2, req, Offered(g.offered))], offered := g.offered + 1)
  }

  /** A request's descriptors are taken. */
  lemma NotFree(s: Queue, g: Ghost, k: nat, i: nat)
    requires Inv(s, g) && PartOf(g, k, i)
    ensures i < NUM && !s.free[i]
  {
    assert FlightGood(s, g, k);
  }

  lemma SubmitFlights(s: Queue, g: Ghost, h: nat, d1: nat, d2: nat, req: Request, k: nat)
    requires Inv(s, g) && CanSubmit(s, g, h, d1, d2, req.b) && g.offered - g.taken <= 2
    ensures FlightGood(Submitted(s, h, d1, d2, req), SubmitGhost(g, h, d1, d2, req), k)
  {
    var s', g' := Submitted(s, h, d1, d2, req), SubmitGhost(g, h, d1, d2, req);
    Wrapped(g.offered);
    if k != h && k in g.flights {
      assert FlightGood(s, g, k);
      if g.flights[k].stage.Offered? {
        OtherPlace(g.flights[k].stage.pos, g.offered);
      }
    }
  }

  lemma SubmitPartition(s: Queue, g: Ghost, h: nat, d1: nat, d2: nat, req: Request)
    requires Inv(s, g) && CanSubmit(s, g, h, d1, d2, req.b)
    ensures var g' := SubmitGhost(g, h, d1, d2, req);
            (forall x: nat, y: nat :: Apart(g', x, y)) && forall i: nat :: DescGood(Submitted(s, h, d1, d2, req), g', i)
  {
    var s', g' := Submitted(s, h, d1, d2, req), SubmitGhost(g, h, d1, d2, req);
    forall x: nat, i: nat | x != h && PartOf(g', x, i) ensures PartOf(g, x, i) && i < NUM && !s.free[i] {
      NotFree(s, g, x, i);
    }
    forall x: nat, y: nat ensures Apart(g', x, y) {
      assert Apart(g, x, y);
      forall i | 0 <= i < NUM && x in g'.flights && y in g'.flights && x != y
        ensures !(PartOf(g', x, i) && PartOf(g', y, i))
      {
        assert x in g.flights && y in g.flights ==> !(PartOf(g, x, i) && PartOf(g, y, i));
      }
    }
    forall i: nat ensures DescGood(s', g', i) {
      assert DescGood(s, g, i);
      if i < NUM && !s'.free[i] {
        if i == h || i == d1 || i == d2 {
          assert PartOf(g', h, i);
        } else {
          var k :| 0 <= k < NUM && PartOf(g, k, i);
          NotFree(s, g, k, k);
          assert PartOf(g', k, i);
        }
      }
    }
  }

  lemma SubmitCounted(s: Queue, g: Ghost, h: nat, d1: nat, d2: nat, req: Request)
    requires Inv(s, g) && CanSubmit(s, g, h, d1, d2, req.b)
    ensures h !in g.flights && Counted(Submitted(s, h, d1, d2, req), SubmitGhost(g, h, d1, d2, req))
  {
    var g' := SubmitGhost(g, h, d1, d2, req);
    if h in g.flights {
      NotFree(s, g, h, h);
    }
    assert g'.flights.Keys == g.flights.Keys + {h} && |g'.flights| == |g'.flights.Keys| &&
           |g.flights| == |g.flights.Keys|;
    CountPut(s.free, h, false);
    CountPut(s.free[h := false], d1, false);
    CountPut(s.free[h := false][d1 := false], d2, false);
  }

  lemma SubmitRings(s: Queue, g: Ghost, h: nat, d1: nat, d2: nat, req: Request, pos: nat)
    requires Inv(s, g) && CanSubmit(s, g, h, d1, d2, req.b) && h !in g.flights && g.offered - g.taken <= 2
    ensures var s', g' := Submitted(s, h, d1, d2, req), SubmitGhost(g, h, d1, d2, req);
            AvailGood(s', g', pos) && UsedGood(s', g', pos)
  {
    Wrapped(g.offered);
    assert AvailGood(s, g, pos) && UsedGood(s, g, pos);
    if g.taken <= pos < g.offered {
      OtherPlace(pos, g.offered);
    }
  }

  /** virtio_disk_rw publishes a request. */
  lemma SubmitInv(s: Queue, g: Ghost, h: nat, d1: nat, d2: nat, req: Request)
    requires Inv(s, g) && CanSubmit(s, g, h, d1, d2, req.b)
    ensures Inv(Submitted(s, h, d1, d2, req), SubmitGhost(g, h, d1, d2, req))
  {
    var s', g' := Submitted(s, h, d1, d2, req), SubmitGhost(g, h, d1, d2, req);
    RingsHaveRoom(s, g);
    Wrapped(g.offered);
    SubmitCounted(s, g, h, d1, d2, req);
    forall k: nat ensures FlightGood(s', g', k) {
      SubmitFlights(s, g, h, d1, d2, req, k);
    }
    SubmitPartition(s, g, h, d1, d2, req);
    forall pos: nat ensures AvailGood(s', g', pos) && UsedGood(s', g', pos) {
      SubmitRings(s, g, h, d1, d2, req, pos);
    }
  }

  function FreedDesc(s: Queue, i: nat): Queue
    requires Sized(s) && i < NUM
  {
    s.(desc := s.desc[i := Desc(Nothing, 0, false, false, 0)], free := s.free[i := true])
  }

  function Collected(s: Queue, h: nat, f: Flight): Queue
    requires Sized(s) && h < NUM && f.d1 < NUM && f.d2 < NUM
  {
    FreedDesc(FreedDesc(FreedDesc(s.(info := s.info[h := s.info[h].(b := -1)]), h), f.d1), f.d2)
  }

  function CollectGhost(g: Ghost, h: nat): Ghost {
    g.(flights := g.flights - {h})
  }

  lemma CollectFlights(s: Queue, g: Ghost, h: nat, k: nat)
    requires Inv(s, g) && h in g.flights && g.flights[h].stage == Done
    ensures h < NUM && g.flights[h].d1 < NUM && g.flights[h].d2 < NUM
    ensures FlightGood(Collected(s, h, g.flights[h]), CollectGhost(g, h), k)
  {
    assert FlightGood(s, g, h) && FlightGood(s, g, k) && Apart(g, h, k);
    var f := g.flights[h];
    if k != h && k in g.flights {
      var e := g.flights[k];
      assert !(PartOf(g, h, k) && PartOf(g, k, k)) && !(PartOf(g, h, e.d1) && PartOf(g, k, e.d1)) &&
             !(PartOf(g, h, e.d2) && PartOf(g, k, e.d2));
    }
  }

  lemma CollectPartition(s: Queue, g: Ghost, h: nat)
    requires Inv(s, g) && h in g.flights && g.flights[h].stage == Done
    ensures h < NUM && g.flights[h].d1 < NUM && g.flights[h].d2 < NUM
    ensures var g' := CollectGhost(g, h);
            (forall x: nat, y: nat :: Apart(g', x, y)) &&
            forall i: nat :: DescGood(Collected(s, h, g.flights[h]), g', i)
  {
    assert FlightGood(s, g, h);
    var s', g' := Collected(s, h, g.flights[h]), CollectGhost(g, h);
    forall x: nat, y: nat ensures Apart(g', x, y) {
      assert Apart(g, x, y);
      forall i | 0 <= i < NUM && x in g'.flights && y in g'.flights && x != y
        ensures !(PartOf(g', x, i) && PartOf(g', y, i))
      {
        assert !(PartOf(g, x, i) && PartOf(g, y, i));
      }
    }
    forall i: nat ensures DescGood(s', g', i) {
      assert DescGood(s, g, i);
      if i < NUM && !s'.free[i] {
        var k :| 0 <= k < NUM && PartOf(g, k, i);
        assert PartOf(g', k, i);
      }
    }
  }

  /** virtio_disk_rw, its request done, frees exactly the request's three descriptors. */
  lemma CollectInv(s: Queue, g: Ghost, h: nat)
    requires Inv(s, g) && h in g.flights && g.flights[h].stage == Done
    ensures h < NUM && g.flights[h].d1 < NUM && g.flights[h].d2 < NUM
    ensures Inv(Collected(s, h, g.flights[h]), CollectGhost(g, h))
  {
    assert FlightGood(s, g, h);
    var f := g.flights[h];
    var s', g' := Collected(s, h, f), CollectGhost(g, h);
    assert Counted(s', g') by {
      CountPut(s.free, h, true);
      CountPut(s.free[h := true], f.d1, true);
      CountPut(s.free[h := true][f.d1 := true], f.d2, true);
      assert g'.flights.Keys == g.flights.Keys - {h} && |g'.flights| == |g'.flights.Keys| &&
             |g.flights| == |g.flights.Keys|;
    }
    forall k: nat ensures FlightGood(s', g', k) {
      CollectFlights(s, g, h, k);
    }
    CollectPartition(s, g, h);
    forall pos: nat ensures AvailGood(s', g', pos) {
      assert AvailGood(s, g, pos);
    }
    forall pos: nat ensures UsedGood(s', g', pos) {
      assert UsedGood(s, g, pos);
    }
  }

  // ---------------------------------------------------------------- the code

  /** Descriptors that are free may hold anything. */
  lemma FreeDescsDontMatter(s: Queue, g: Ghost, desc: seq<Desc>)
    requires Inv(s, g) && |desc| == NUM && forall i :: 0 <= i < NUM && !s.free[i] ==> desc[i] == s.desc[i]
    ensures Inv(s.(desc := desc), g)
  {
    var s' := s.(desc := desc);
    forall h: nat ensures FlightGood(s', g, h) {
      assert FlightGood(s, g, h);
    }
    forall i: nat ensures DescGood(s', g, i) {
      assert DescGood(s, g, i);
    }
    forall pos: nat ensures AvailGood(s', g, pos) && UsedGood(s', g, pos) {
      assert AvailGood(s, g, pos) && UsedGood(s, g, pos);
    }
  }

  class VirtioDisk {
    var s: Queue
    ghost var g: Ghost

    ghost predicate Valid() reads this {
      Inv(s, g)
    }

    /** alloc_desc: the first free descriptor, or -1. */
    method AllocDesc() returns (i: int)
      requires Sized(s)
      modifies this`s
      ensures i == -1 ==> s == old(s) && CountFree(s.free) == 0
      ensures i != -1 ==> 0 <= i < NUM && old(s).free[i] && (forall k :: 0 <= k < i ==> !old(s).free[k]) &&
                          s == old(s).(free := old(s).free[i := false]) &&
                          CountFree(s.free) == CountFree(old(s).free) - 1
    {
      hide CountFree;
      i := 0;
      while i < NUM
        invariant 0 <= i <= NUM && s == old(s) && forall k :: 0 <= k < i ==> !s.free[k]
      {
        if s.free[i] {
          CountPut(s.free, i, false);
          s := s.(free := s.free[i := false]);
          return;
        }
        i := i + 1;
      }
      NoneFree(s.free);
      i := -1;
    }

    /** free_desc */
    method FreeDesc(i: nat)
      requires Sized(s) && i < NUM && !s.free[i]
      modifies this`s
      ensures s == FreedDesc(old(s), i)
    {
      s := s.(desc := s.desc[i := Desc(Nothing, 0, false, false, 0)]);
      s := s.(free := s.free[i := true]);
    }

    /** alloc3_desc: three different free descriptors, or none. */
    method Alloc3Desc() returns (ok: bool, i0: nat, i1: nat, i2: nat)
      requires Sized(s)
      modifies this`s
      ensures ok ==> i0 < NUM && i1 < NUM && i2 < NUM && i0 != i1 && i0 != i2 && i1 != i2 &&
                     old(s).free[i0] && old(s).free[i1] && old(s).free[i2] &&
                     s == old(s).(free := old(s).free[i0 := false][i1 := false][i2 := false])
      ensures ok <==> CountFree(old(s).free) >= 3
      ensures !ok ==> |s.desc| == NUM && s == old(s).(desc := s.desc) &&
                      forall k :: 0 <= k < NUM && !s.free[k] ==> s.desc[k] == old(s).desc[k]
    {
      hide CountFree;
      i0, i1, i2 := 0, 0, 0;
      var a := AllocDesc();
      if a < 0 {
        return false, i0, i1, i2;
      }
      var b := AllocDesc();
      if b < 0 {
        FreeDesc(a);
        assert s.free == old(s).free;
        return false, i0, i1, i2;
      }
      var c := AllocDesc();
      if c < 0 {
        FreeDesc(a);
        FreeDesc(b);
        assert s.free == old(s).free;
        return false, i0, i1, i2;
      }
      return true, a, b, c;
    }

    /** The request in its three descriptors, and their head on the avail ring. */
    method FillChain(h: nat, i1: nat, i2: nat, b: nat, blockno: nat, write: bool, ghost was: Queue)
      requires Sized(was) && h < NUM && i1 < NUM && i2 < NUM && h != i1 && h != i2 && i1 != i2
      requires s == was.(free := was.free[h := false][i1 := false][i2 := false])
      modifies this`s
      ensures s == Submitted(was, h, i1, i2, Request(write, Sector(blockno), b))
    {
      s := s.(ops := s.ops[h := Op(write, Sector(blockno))]);
      s := s.(desc := s.desc[h := Desc(OpOf(h), 16, true, false, i1)]);
      s := s.(desc := s.desc[i1 := Desc(DataOf(b), Blocks.BSIZE, true, !write, i2)]);
      s := s.(info := s.info[h := Info(s.info[h].b, 0xff)]);
      s := s.(desc := s.desc[i2 := Desc(StatusOf(h), 1, false, true, 0)]);
      s := s.(busy := s.busy + {b});
      s := s.(info := s.info[h := Info(b, s.info[h].status)]);
      s := s.(avail := s.avail[s.availIdx % NUM := h]);
      s := s.(availIdx := (s.availIdx + 1) % WRAP);
    }

    /** virtio_disk_rw up to the notification; false when it has to sleep for descriptors first. */
    method Submit(b: nat, blockno: nat, write: bool) returns (ok: bool, h: nat)
      requires Valid() && b !in s.busy && forall k: nat :: k in g.flights ==> g.flights[k].req.b != b
      modifies this
      ensures Valid()
      ensures ok <==> |old(g).flights| < 2
      ensures !ok ==> g == old(g)
      ensures ok ==> h !in old(g).flights && h in g.flights && g.offered == old(g).offered + 1 &&
                     g.flights == old(g).flights[h := Flight(g.flights[h].d1, g.flights[h].d2,
                                                             Request(write, Sector(blockno), b),
                                                             Offered(old(g).offered))]
    {
      hide FlightGood, Apart, DescGood, AvailGood, UsedGood, Submitted;
      var i1, i2;
      ok, h, i1, i2 := Alloc3Desc();
      if !ok {
        FreeDescsDontMatter(old(s), g, s.desc);
        return;
      }
      ghost var req := Request(write, Sector(blockno), b);
      SubmitInv(old(s), g, h, i1, i2, req);
      SubmitCounted(old(s), g, h, i1, i2, req);
      FillChain(h, i1, i2, b, blockno, write, old(s));
      g := SubmitGhost(g, h, i1, i2, req);
    }

    /** free_chain */
    method FreeChain(h: nat, ghost f: Flight)
      requires Sized(s) && ChainGood(s, h, f)
      modifies this`s
      ensures s == FreedDesc(FreedDesc(FreedDesc(old(s), h), f.d1), f.d2)
    {
      var i := h;
      ghost var n := 0;
      while true
        invariant 0 <= n <= 2 && i == (if n == 0 then h else if n == 1 then f.d1 else f.d2)
        invariant s == if n == 0 then old(s)
                       else if n == 1 then FreedDesc(old(s), h) else FreedDesc(FreedDesc(old(s), h), f.d1)
        decreases 3 - n
      {
        var flag, nxt := s.desc[i].hasNext, s.desc[i].next;
        FreeDesc(i);
        if flag {
          i := nxt;
        } else {
          break;
        }
        n := n + 1;
      }
    }

    /** virtio_disk_rw once its buffer is no longer with the disk. */
    method Finish(h: nat)
      requires Valid() && h in g.flights && h < NUM && s.info[h].b !in s.busy
      modifies this
      ensures Valid() && g == CollectGhost(old(g), h)
      ensures forall i :: 0 <= i < NUM ==> s.free[i] == (old(s).free[i] || PartOf(old(g), h, i))
    {
      assert FlightGood(s, g, h);
      CollectInv(s, g, h);
      ghost var f := g.flights[h];
      s := s.(info := s.info[h := Info(-1, s.info[h].status)]);
      FreeChain(h, f);
      g := CollectGhost(g, h);
    }

    /** virtio_disk_intr */
    method Intr()
      requires Valid()
      modifies this
      ensures Valid() && g.seen == g.finished == old(g).finished
      ensures g.flights.Keys == old(g).flights.Keys && g.offered == old(g).offered && g.taken == old(g).taken
      ensures forall h: nat :: h in g.flights ==> AfterIntr(old(g).flights[h], g.flights[h])
    {
      hide FlightGood, Apart, DescGood, AvailGood, UsedGood;
      RingsHaveRoom(s, g);
      WrappedEqual(g.seen, g.finished);
      while s.seen != s.usedIdx
        invariant Valid() && g.finished == old(g).finished && g.offered == old(g).offered && g.taken == old(g).taken
        invariant g.flights.Keys == old(g).flights.Keys && (s.seen == s.usedIdx <==> g.seen == g.finished)
        invariant forall h: nat :: h in g.flights ==>
                    g.flights[h] == old(g).flights[h] || AfterIntr(old(g).flights[h], g.flights[h])
        decreases g.finished - g.seen
      {
        SeeInv(s, g);
        ghost var g1 := SeeGhost(s, g);
        var id := s.used[s.seen % NUM];
        assert s.info[id].status == 0;
        s := s.(busy := s.busy - {s.info[id].b});
        s := s.(seen := (s.seen + 1) % WRAP);
        g := g1;
        RingsHaveRoom(s, g);
        WrappedEqual(g.seen, g.finished);
      }
      forall h: nat | h in g.flights ensures AfterIntr(old(g).flights[h], g.flights[h]) {
        assert FlightGood(s, g, h);
        NoneUnseen(s, g, h);
      }
    }
  }

  /** What one interrupt does to a request: finished ones are done, others untouched. */
  predicate AfterIntr(f: Flight, f': Flight) {
    f' == if f.stage.Finished? then f.(stage := Done) else f
  }

  // ---------------------------------------------------------------- whole runs

  datatype Step =
    | Submits(h: nat, d1: nat, d2: nat, req: Request)
    | Takes
    | Completes(h: nat)
    | Sees
    | Collects(h: nat)

  predicate Enabled(s: Queue, g: Ghost, step: Step) {
    Sized(s) &&
    match step
    case Submits(h, d1, d2, req) => CanSubmit(s, g, h, d1, d2, req.b)
    case Takes => g.taken < g.offered && s.avail[g.taken % NUM] in g.flights
    case Completes(h) => h < NUM && h in g.flights && g.flights[h].stage == Working
    case Sees => g.seen < g.finished && s.used[s.seen % NUM] < NUM && s.used[g.seen % NUM] in g.flights
    case Collects(h) =>
      h < NUM && h in g.flights && g.flights[h].stage == Done && g.flights[h].d1 < NUM && g.flights[h].d2 < NUM
  }

  function NextQueue(s: Queue, g: Ghost, step: Step): Queue
    requires Enabled(s, g, step)
  {
    match step
    case Submits(h, d1, d2, req) => Submitted(s, h, d1, d2, req)
    case Takes => s
    case Completes(h) => Completed(s, h)
    case Sees => SeenOne(s)
    case Collects(h) => Collected(s, h, g.flights[h])
  }

  function NextGhost(s: Queue, g: Ghost, step: Step): Ghost
    requires Enabled(s, g, step)
  {
    match step
    case Submits(h, d1, d2, req) => SubmitGhost(g, h, d1, d2, req)
    case Takes => TakeGhost(s, g)
    case Completes(h) => CompleteGhost(g, h)
    case Sees => SeeGhost(s, g)
    case Collects(h) => CollectGhost(g, h)
  }

  lemma StepInv(s: Queue, g: Ghost, step: Step)
    requires Inv(s, g) && Enabled(s, g, step)
    ensures Inv(NextQueue(s, g, step), NextGhost(s, g, step))
  {
    match step
    case Submits(h, d1, d2, req) => SubmitInv(s, g, h, d1, d2, req);
    case Takes => TakeInv(s, g);
    case Completes(h) => CompleteInv(s, g, h);
    case Sees => SeeInv(s, g);
    case Collects(h) => CollectInv(s, g, h);
  }

  predicate Run(s: Queue, g: Ghost, steps: seq<Step>, s': Queue, g': Ghost)
    decreases |steps|
  {
    if steps == [] then s == s' && g == g'
    else Enabled(s, g, steps[0]) && Run(NextQueue(s, g, steps[0]), NextGhost(s, g, steps[0]), steps[1..], s', g')
  }

  /** The buffer whose request this step makes or reports done. */
  function Makes(step: Step, b: nat): int { if step.Submits? && step.req.b == b then 1 else 0 }

  function Reports(s: Queue, step: Step, b: nat): int
    requires Sized(s)
  {
    if step.Sees? && s.used[s.seen % NUM] < NUM && s.info[s.used[s.seen % NUM]].b == b then 1 else 0
  }

  function Outstanding(s: Queue, b: nat): int { if b in s.busy then 1 else 0 }

  /** Over a run, how many requests for b were made and how many were reported done. */
  function Made(steps: seq<Step>, b: nat): int {
    if steps == [] then 0 else Makes(steps[0], b) + Made(steps[1..], b)
  }

  function Reported(s: Queue, g: Ghost, steps: seq<Step>, s': Queue, g': Ghost, b: nat): int
    requires Run(s, g, steps, s', g')
    decreases |steps|
  {
    if steps == [] then 0
    else Reports(s, steps[0], b) + Reported(NextQueue(s, g, steps[0]), NextGhost(s, g, steps[0]), steps[1..], s', g', b)
  }

  /** In every run, every request is reported done exactly once or is still outstanding, and nothing else is. */
  lemma {:induction false} ExactlyOnce(s: Queue, g: Ghost, steps: seq<Step>, s': Queue, g': Ghost, b: nat)
    requires Inv(s, g) && Run(s, g, steps, s', g')
    ensures Inv(s', g') && Outstanding(s, b) + Made(steps, b) == Reported(s, g, steps, s', g', b) + Outstanding(s', b)
    decreases |steps|
  {
    if steps != [] {
      var step := steps[0];
      StepInv(s, g, step);
      if step.Sees? {
        SeeInv(s, g);
      }
      ExactlyOnce(NextQueue(s, g, step), NextGhost(s, g, step), steps[1..], s', g', b);
    }
  }

  /** The driver's memory after virtio_disk_init. */
  function Initial(desc: seq<Desc>, ops: seq<Op>, info: seq<Info>): Queue {
    Queue(seq(NUM, _ => true), desc, ops, info, seq(NUM, _ => 0), 0, seq(NUM, _ => 0), 0, 0, {})
  }

  lemma InitialInv(desc: seq<Desc>, ops: seq<Op>, info: seq<Info>)
    requires |desc| == NUM && |ops| == NUM && |info| == NUM
    ensures Inv(Initial(desc, ops, info), Ghost(map[], 0, 0, 0, 0))
  {
    AllFree(NUM);
  }

  lemma {:induction false} AllFree(n: nat)
    ensures CountFree(seq(n, _ => true)) == n
  {
    if n > 0 {
      assert seq(n, _ => true)[1..] == seq(n - 1, _ => true);
      AllFree(n - 1);
    }
  }

  // ---------------------------------------------------------------- every request can be brought to its end

  /** Steps a request still needs. */
  function ToGo(t: Stage): nat { if t.Offered? then 4 else if t.Working? then 3 else if t.Finished? then 2 else 1 }

  ghost function Work(flights: map<nat, Flight>): nat {
    if flights == map[] then 0 else var h :| h in flights; ToGo(flights[h].stage) + Work(flights - {h})
  }

  lemma {:induction false} WorkOf(flights: map<nat, Flight>, h: nat)
    requires h in flights
    ensures Work(flights) == ToGo(flights[h].stage) + Work(flights - {h})
    decreases |flights|
  {
    var k :| k in flights && Work(flights) == ToGo(flights[k].stage) + Work(flights - {k});
    if k != h {
      WorkOf(flights - {k}, h);
      WorkOf(flights - {h}, k);
      assert flights - {k} - {h} == flights - {h} - {k};
    }
  }

  lemma WorkMoves(g: Ghost, h: nat, t: Stage)
    requires h in g.flights
    ensures Work(WithStage(g, h, t).flights) == Work(g.flights) - ToGo(g.flights[h].stage) + ToGo(t)
  {
    var flights := WithStage(g, h, t).flights;
    WorkOf(g.flights, h);
    WorkOf(flights, h);
    assert flights - {h} == g.flights - {h};
  }

  /** What has to happen next for a request, and that it can. */
  function NextFor(g: Ghost, h: nat): Step
    requires h in g.flights
  {
    match g.flights[h].stage
    case Offered(_) => Takes
    case Working => Completes(h)
    case Finished(_) => Sees
    case Done => Collects(h)
  }

  lemma NothingStuck(s: Queue, g: Ghost, h: nat)
    requires Inv(s, g) && h in g.flights
    ensures Enabled(s, g, NextFor(g, h)) && Work(NextGhost(s, g, NextFor(g, h)).flights) == Work(g.flights) - 1
  {
    assert FlightGood(s, g, h);
    match g.flights[h].stage
    case Offered(pos) =>
      assert AvailGood(s, g, g.taken);
      WorkMoves(g, s.avail[g.taken % NUM], Working);
    case Working => WorkMoves(g, h, Finished(g.finished));
    case Finished(pos) =>
      assert UsedGood(s, g, g.seen);
      Wrapped(g.seen);
      assert FlightGood(s, g, s.used[g.seen % NUM]);
      WorkMoves(g, s.used[g.seen % NUM], Done);
    case Done => WorkOf(g.flights, h);
  }

  /** From every state, device and driver can go on until no request is in flight and every descriptor is free. */
  lemma {:induction false} Drains(s: Queue, g: Ghost) returns (steps: seq<Step>, s': Queue, g': Ghost)
    requires Inv(s, g)
    ensures Run(s, g, steps, s', g') && Inv(s', g') && g'.flights == map[] && CountFree(s'.free) == NUM
    ensures |steps| == Work(g.flights) && forall step :: step in steps ==> !step.Submits?
    decreases Work(g.flights)
  {
    hide Inv, Enabled, NextQueue, NextGhost, Run, Work;
    if g.flights == map[] {
      steps, s', g' := [], s, g;
      NoneInFlight(s, g);
    } else {
      var h :| h in g.flights;
      var step := NextFor(g, h);
      NothingStuck(s, g, h);
      StepInv(s, g, step);
      var rest;
      rest, s', g' := Drains(NextQueue(s, g, step), NextGhost(s, g, step));
      steps := [step] + rest;
      RunFirst(s, g, step, rest, s', g');
    }
  }

  lemma NoneInFlight(s: Queue, g: Ghost)
    requires Inv(s, g) && g.flights == map[]
    ensures Run(s, g, [], s, g) && Work(g.flights) == 0 && CountFree(s.free) == NUM
  {
  }

  lemma RunFirst(s: Queue, g: Ghost, step: Step, rest: seq<Step>, s': Queue, g': Ghost)
    requires Enabled(s, g, step) && Run(NextQueue(s, g, step), NextGhost(s, g, step), rest, s', g')
    ensures Run(s, g, [step] + rest, s', g')
  {
    hide Enabled, NextQueue, NextGhost;
    assert ([step] + rest)[1..] == rest;
  }
}
