/**
 The buffer cache (kernel/bio.c): a fixed array of buffers on a circular doubly linked list, most
 recently released first.

 `ring` is a ghost: the list as a sequence, starting with the list head.  `stamp` is a ghost clock
 reading per buffer: when brelse last brought its reference count to zero.
 */
module BufferCaches {

  const NBUF: nat := 30
  const HEAD: nat := 30  // the list head, after the buffers

  type Contents = seq<int>

  datatype Buf = Buf(dev: nat, blockno: nat, valid: bool, refcnt: nat, data: Contents, prev: nat, next: nat)

  // ---------------------------------------------------------------- the ring

  function Succ(ring: seq<nat>, i: nat): nat
    requires i < |ring|
  {
    if i + 1 < |ring| then ring[i + 1] else ring[0]
  }

  function Pred(ring: seq<nat>, i: nat): nat
    requires i < |ring|
  {
    if i > 0 then ring[i - 1] else ring[|ring| - 1]
  }

  predicate NodeGood(h: seq<Buf>, ring: seq<nat>, i: nat) {
    i < |ring| ==> ring[i] < |h| && h[ring[i]].next == Succ(ring, i) && h[ring[i]].prev == Pred(ring, i)
  }

  predicate Distinct(ring: seq<nat>) {
    forall i, j :: 0 <= i < j < |ring| ==> ring[i] != ring[j]
  }

  /** A circular doubly linked list through the head. */
  ghost predicate Linked(h: seq<Buf>, ring: seq<nat>) {
    |ring| > 0 && ring[0] == HEAD && Distinct(ring) && forall i: nat :: NodeGood(h, ring, i)
  }

  function Without(ring: seq<nat>, k: nat): seq<nat>
    requires k < |ring|
  {
    ring[..k] + ring[k + 1..]
  }

  function SetPrev(h: seq<Buf>, b: nat, x: nat): seq<Buf>
    requires b < |h|
  {
    h[b := h[b].(prev := x)]
  }

  function SetNext(h: seq<Buf>, b: nat, x: nat): seq<Buf>
    requires b < |h|
  {
    h[b := h[b].(next := x)]
  }

  /** b->next->prev = b->prev; b->prev->next = b->next; */
  function Unlinked(h: seq<Buf>, b: nat): seq<Buf>
    requires b < |h| && h[b].next < |h| && h[b].prev < |h|
  {
    SetNext(SetPrev(h, h[b].next, h[b].prev), h[b].prev, h[b].next)
  }

  lemma UnlinkGood(h: seq<Buf>, ring: seq<nat>, k: nat)
    requires Linked(h, ring) && 0 < k < |ring|
    ensures var b := ring[k]; b < |h| && h[b].next < |h| && h[b].prev < |h| && Linked(Unlinked(h, b), Without(ring, k))
  {
    var b := ring[k];
    assert NodeGood(h, ring, k) && NodeGood(h, ring, k - 1) && NodeGood(h, ring, if k + 1 < |ring| then k + 1 else 0);
    var h', ring' := Unlinked(h, b), Without(ring, k);
    forall i: nat ensures NodeGood(h', ring', i) {
      if i < |ring'| {
        var j := if i < k then i else i + 1;
        assert ring'[i] == ring[j] && NodeGood(h, ring, j);
        assert ring[j] == ring[k - 1] <==> j == k - 1;
        assert ring[j] == Succ(ring, k) <==> j == (if k + 1 < |ring| then k + 1 else 0);
      }
    }
  }

  /** Put b right after the head. */
  function Pushed(h: seq<Buf>, b: nat): seq<Buf>
    requires b < |h| && HEAD < |h| && h[HEAD].next < |h|
  {
    var f := h[HEAD].next;
    SetNext(SetPrev(SetPrev(SetNext(h, b, f), b, HEAD), f, b), HEAD, b)
  }

  function Front(ring: seq<nat>, b: nat): seq<nat>
    requires |ring| > 0
  {
    [ring[0], b] + ring[1..]
  }

  lemma PushGood(h: seq<Buf>, ring: seq<nat>, b: nat)
    requires Linked(h, ring) && b < |h| && b !in ring
    ensures HEAD < |h| && h[HEAD].next < |h| && Linked(Pushed(h, b), Front(ring, b))
  {
    assert NodeGood(h, ring, 0);
    assert |ring| > 1 ==> NodeGood(h, ring, 1);
    var h', ring' := Pushed(h, b), Front(ring, b);
    var f := h[HEAD].next;
    forall i: nat ensures NodeGood(h', ring', i) {
      if 0 < i < |ring'| {
        if i >= 2 {
          assert ring'[i] == ring[i - 1] && NodeGood(h, ring, i - 1);
          assert ring[i - 1] == f <==> i == 2;
        }
      }
    }
    forall i, j | 0 <= i < j < |ring'| ensures ring'[i] != ring'[j] {
      if i >= 2 {
        assert ring'[i] == ring[i - 1] && ring'[j] == ring[j - 1];
      } else if j >= 2 {
        assert ring'[j] == ring[j - 1];
      }
    }
  }

  // ---------------------------------------------------------------- the cache

  type Disk = map<(nat, nat), Contents>

  function OnDisk(disk: Disk, dev: nat, n: nat): Contents {
    if (dev, n) in disk then disk[(dev, n)] else []
  }

  predicate Holds(h: seq<Buf>, b: nat, dev: nat, n: nat) {
    b < NBUF && b < |h| && h[b].dev == dev && h[b].blockno == n
  }

  /** No block of a real device is held twice. */
  predicate Unique(h: seq<Buf>) {
    forall b: nat, c: nat ::
      b < NBUF && c < NBUF && b < |h| && c < |h| && h[b].dev == h[c].dev != 0 && h[b].blockno == h[c].blockno ==> b == c
  }

  /** An unreferenced buffer with contents has those of the disk. */
  predicate Clean(h: seq<Buf>, disk: Disk) {
    forall b: nat :: b < NBUF && b < |h| && h[b].valid && h[b].refcnt == 0 ==>
      h[b].data == OnDisk(disk, h[b].dev, h[b].blockno)
  }

  ghost predicate Ordered(ring: seq<nat>, stamp: seq<int>, clock: int) {
    |stamp| == NBUF && (forall b :: 0 <= b < NBUF ==> stamp[b] < clock) &&
    forall i, j :: 0 < i < j < |ring| && ring[i] < NBUF && ring[j] < NBUF ==> stamp[ring[i]] > stamp[ring[j]]
  }

  /** Every buffer is on the ring, and only buffers. */
  predicate Complete(ring: seq<nat>) {
    (forall b: nat :: b < NBUF ==> b in ring) && forall i :: 0 < i < |ring| ==> ring[i] < NBUF
  }

  ghost predicate Good(h: seq<Buf>, ring: seq<nat>, disk: Disk, stamp: seq<int>, clock: int) {
    |h| == NBUF + 1 && Linked(h, ring) && Complete(ring) && Unique(h) && Clean(h, disk) && Ordered(ring, stamp, clock)
  }

  /** What a block holds: its buffer's contents if it has any, else the disk's. */
  ghost predicate Logical(h: seq<Buf>, disk: Disk, dev: nat, n: nat, x: Contents) {
    (forall b: nat :: Holds(h, b, dev, n) && h[b].valid ==> h[b].data == x) &&
    ((forall b: nat :: Holds(h, b, dev, n) ==> !h[b].valid) ==> x == OnDisk(disk, dev, n))
  }

  /** In a good cache a block of a real device holds one thing, and holds something. */
  lemma LogicalUnique(h: seq<Buf>, ring: seq<nat>, disk: Disk, stamp: seq<int>, clock: int, dev: nat, n: nat)
    returns (x: Contents)
    requires Good(h, ring, disk, stamp, clock) && dev != 0
    ensures forall y: Contents :: Logical(h, disk, dev, n, y) <==> y == x
  {
    if b: nat :| Holds(h, b, dev, n) && h[b].valid {
      x := h[b].data;
      assert Logical(h, disk, dev, n, x);
      forall y: Contents | Logical(h, disk, dev, n, y) ensures y == x {
        assert y == h[b].data;
      }
    } else {
      x := OnDisk(disk, dev, n);
    }
  }

  /** Links aside, the same buffers. */
  predicate SameBuf(a: Buf, b: Buf) {
    a.dev == b.dev && a.blockno == b.blockno && a.valid == b.valid && a.refcnt == b.refcnt && a.data == b.data
  }

  ghost predicate SameLogical(h: seq<Buf>, disk: Disk, h': seq<Buf>, disk': Disk) {
    forall dev: nat, n: nat, x: Contents :: dev != 0 && Logical(h, disk, dev, n, x) ==> Logical(h', disk', dev, n, x)
  }

  /** The first loop of bget. */
  method FindCached(buf: array<Buf>, dev: nat, n: nat, ghost ring: seq<nat>) returns (b: nat)
    requires buf.Length == NBUF + 1 && Linked(buf[..], ring) && Complete(ring)
    ensures b == HEAD ==> forall c: nat :: !Holds(buf[..], c, dev, n)
    ensures b != HEAD ==> Holds(buf[..], b, dev, n)
  {
    assert NodeGood(buf[..], ring, 0);
    b := buf[HEAD].next;
    ghost var i: nat := if |ring| > 1 then 1 else 0;
    while b != HEAD
      invariant i < |ring| && b == ring[i]
      invariant forall j :: 0 < j < |ring| && (j < i || i == 0) ==> !Holds(buf[..], ring[j], dev, n)
      decreases if i == 0 then 0 else |ring| - i
    {
      if buf[b].dev == dev && buf[b].blockno == n {
        return;
      }
      assert NodeGood(buf[..], ring, i);
      b := buf[b].next;
      i := if i + 1 < |ring| then i + 1 else 0;
    }
    assert i == 0;
    forall c: nat ensures !Holds(buf[..], c, dev, n) {
      if c < NBUF {
        assert c in ring;
        var j :| 0 <= j < |ring| && ring[j] == c;
      }
    }
  }

  /** The second loop of bget: from the least recently released end, the first unreferenced buffer. */
  method FindUnused(buf: array<Buf>, ghost ring: seq<nat>) returns (b: nat, ghost i: nat)
    requires buf.Length == NBUF + 1 && Linked(buf[..], ring) && Complete(ring)
    ensures b == HEAD ==> forall c: nat :: c < NBUF ==> buf[c].refcnt > 0
    ensures b != HEAD ==> 0 < i < |ring| && b == ring[i] && buf[b].refcnt == 0 &&
                          forall j :: i < j < |ring| ==> buf[ring[j]].refcnt > 0
  {
    assert NodeGood(buf[..], ring, 0);
    b := buf[HEAD].prev;
    i := |ring| - 1;
    while b != HEAD
      invariant i < |ring| && b == ring[i]
      invariant forall j :: i < j < |ring| ==> buf[ring[j]].refcnt > 0
      decreases i
    {
      if buf[b].refcnt == 0 {
        return;
      }
      assert NodeGood(buf[..], ring, i);
      b := buf[b].prev;
      i := i - 1;
    }
    forall c: nat | c < NBUF ensures buf[c].refcnt > 0 {
      assert c in ring;
      var j :| 0 <= j < |ring| && ring[j] == c;
    }
  }

  // ---------------------------------------------------------------- one buffer changes, links apart

  /** One more or one less reference, or new contents, for a buffer that stays referenced or clean. */
  lemma RefGood(h: seq<Buf>, ring: seq<nat>, disk: Disk, stamp: seq<int>, clock: int, b: nat, x: Buf)
    requires Good(h, ring, disk, stamp, clock) && b < NBUF
    requires x.dev == h[b].dev && x.blockno == h[b].blockno && x.prev == h[b].prev && x.next == h[b].next
    requires x.valid && x.refcnt == 0 ==> x.data == OnDisk(disk, x.dev, x.blockno)
    ensures Good(h[b := x], ring, disk, stamp, clock)
  {
    var h' := h[b := x];
    forall i: nat ensures NodeGood(h', ring, i) {
      assert NodeGood(h, ring, i);
    }
  }

  lemma RefLogical(h: seq<Buf>, disk: Disk, b: nat, x: Buf)
    requires |h| == NBUF + 1 && b < NBUF && x.dev == h[b].dev && x.blockno == h[b].blockno && x.valid == h[b].valid &&
             x.data == h[b].data
    ensures SameLogical(h, disk, h[b := x], disk)
  {
    var h' := h[b := x];
    forall dev: nat, n: nat, v: Contents | dev != 0 && Logical(h, disk, dev, n, v)
      ensures Logical(h', disk, dev, n, v)
    {
      assert forall c: nat :: Holds(h', c, dev, n) <==> Holds(h, c, dev, n);
    }
  }

  function Recycled(h: seq<Buf>, b: nat, dev: nat, n: nat): seq<Buf>
    requires b < |h|
  {
    h[b := h[b].(dev := dev, blockno := n, valid := false, refcnt := 1)]
  }

  /** Recycling an unreferenced buffer loses nothing, because its contents are on the disk. */
  lemma RecycleGood(h: seq<Buf>, ring: seq<nat>, disk: Disk, stamp: seq<int>, clock: int, b: nat, dev: nat, n: nat)
    requires Good(h, ring, disk, stamp, clock) && b < NBUF && h[b].refcnt == 0 && forall c: nat :: !Holds(h, c, dev, n)
    ensures Good(Recycled(h, b, dev, n), ring, disk, stamp, clock) && SameLogical(h, disk, Recycled(h, b, dev, n), disk)
  {
    var h' := Recycled(h, b, dev, n);
    forall i: nat ensures NodeGood(h', ring, i) {
      assert NodeGood(h, ring, i);
    }
    forall c: nat | c < NBUF && h[c].dev == dev && h[c].blockno == n ensures false {
      assert Holds(h, c, dev, n);
    }
    forall d: nat, m: nat, v: Contents | d != 0 && Logical(h, disk, d, m, v) ensures Logical(h', disk, d, m, v) {
      RecycleLogical(h, disk, b, dev, n, d, m, v);
    }
  }

  lemma RecycleLogical(h: seq<Buf>, disk: Disk, b: nat, dev: nat, n: nat, d: nat, m: nat, v: Contents)
    requires |h| == NBUF + 1 && Unique(h) && Clean(h, disk) && b < NBUF && h[b].refcnt == 0 &&
             (forall c: nat :: !Holds(h, c, dev, n))
    requires d != 0 && Logical(h, disk, d, m, v)
    ensures Logical(Recycled(h, b, dev, n), disk, d, m, v)
  {
    var h' := Recycled(h, b, dev, n);
    assert forall c: nat :: c != b ==> (Holds(h', c, d, m) <==> Holds(h, c, d, m));
    if Holds(h, b, d, m) {
      assert forall c: nat :: Holds(h, c, d, m) ==> c == b;
      assert h[b].valid ==> v == OnDisk(disk, d, m);
    }
  }

  /** A buffer that bread found. */
  function Referenced(x: Buf, disk: Disk): Buf {
    x.(refcnt := x.refcnt + 1, valid := true, data := if x.valid then x.data else OnDisk(disk, x.dev, x.blockno))
  }

  /** A buffer that bread recycled. */
  function Loaded(x: Buf, disk: Disk, dev: nat, n: nat): Buf {
    x.(dev := dev, blockno := n, refcnt := 1, valid := true, data := OnDisk(disk, dev, n))
  }

  class BufferCache {
    const buf: array<Buf>
    var disk: Disk
    ghost var ring: seq<nat>
    ghost var stamp: seq<int>
    ghost var clock: int

    ghost predicate Valid() reads this, buf {
      buf.Length == NBUF + 1 && Good(buf[..], ring, disk, stamp, clock)
    }

    /** Every buffer is in use, and none has this block. */
    ghost predicate NoBuffer(dev: nat, n: nat) reads this, buf {
      buf.Length == NBUF + 1 && (forall c: nat :: !Holds(buf[..], c, dev, n)) &&
      forall c: nat :: c < NBUF ==> buf[c].refcnt > 0
    }

    /** bget: the buffer of a block, or else the unreferenced buffer that brelse brought to zero longest ago; HEAD for
        the
        panic when there is none. */
    method Bget(dev: nat, n: nat) returns (b: nat)
      requires Valid() && dev != 0
      modifies buf
      ensures Valid() && SameLogical(old(buf[..]), disk, buf[..], disk)
      ensures b == HEAD <==> old(NoBuffer(dev, n))
      ensures b == HEAD ==> buf[..] == old(buf[..])
      ensures b != HEAD ==> Holds(buf[..], b, dev, n) && buf[b].refcnt > 0
      ensures Holds(old(buf[..]), b, dev, n) ==>
                buf[..] == old(buf[..])[b := old(buf[b]).(refcnt := old(buf[b]).refcnt + 1)]
      ensures b != HEAD && !Holds(old(buf[..]), b, dev, n) ==>
                (forall c: nat :: !Holds(old(buf[..]), c, dev, n)) && buf[..] == Recycled(old(buf[..]), b, dev, n) &&
                old(buf[b]).refcnt == 0 &&
                forall c: nat :: c < NBUF && old(buf[c]).refcnt == 0 ==> stamp[b] <= stamp[c]
    {
      ghost var h := buf[..];
      b := FindCached(buf, dev, n, ring);
      if b != HEAD {
        RefGood(h, ring, disk, stamp, clock, b, h[b].(refcnt := h[b].refcnt + 1));
        RefLogical(h, disk, b, h[b].(refcnt := h[b].refcnt + 1));
        buf[b] := buf[b].(refcnt := buf[b].refcnt + 1);
        return;
      }
      ghost var i;
      b, i := FindUnused(buf, ring);
      if b == HEAD {
        return;
      }
      OldestUnused(h, ring, stamp, clock, i);
      RecycleGood(h, ring, disk, stamp, clock, b, dev, n);
      buf[b] := buf[b].(dev := dev, blockno := n, valid := false, refcnt := 1);
    }

    /** bread: a referenced buffer with what the block holds; HEAD for the panic in bget. */
    method Bread(dev: nat, n: nat) returns (b: nat)
      requires Valid() && dev != 0
      modifies buf
      ensures Valid() && SameLogical(old(buf[..]), disk, buf[..], disk)
      ensures b == HEAD <==> old(NoBuffer(dev, n))
      ensures b == HEAD ==> buf[..] == old(buf[..])
      ensures b != HEAD ==> Holds(buf[..], b, dev, n) && buf[b].refcnt > 0 && buf[b].valid &&
                            Logical(old(buf[..]), disk, dev, n, buf[b].data)
      ensures Holds(old(buf[..]), b, dev, n) ==> buf[..] == old(buf[..])[b := Referenced(old(buf[b]), disk)]
      ensures b != HEAD && !Holds(old(buf[..]), b, dev, n) ==>
                (forall c: nat :: !Holds(old(buf[..]), c, dev, n)) && old(buf[b]).refcnt == 0 &&
                buf[..] == old(buf[..])[b := Loaded(old(buf[b]), disk, dev, n)]
    {
      b := Bget(dev, n);
      ghost var h := buf[..];
      if b == HEAD {
        return;
      }
      if !buf[b].valid {
        ReadLogical(h, disk, b);
        RefGood(h, ring, disk, stamp, clock, b, h[b].(data := OnDisk(disk, dev, n), valid := true));
        SameLogicalTransitive(old(buf[..]), h, h[b := h[b].(data := OnDisk(disk, dev, n), valid := true)], disk);
        buf[b] := buf[b].(data := OnDisk(disk, buf[b].dev, buf[b].blockno));
        buf[b] := buf[b].(valid := true);
        assert buf[..] == h[b := h[b].(data := OnDisk(disk, dev, n), valid := true)];
      }
      assert Holds(buf[..], b, dev, n);
      FromBuffer(old(buf[..]), buf[..], disk, b);
    }

    /** The holder of a buffer changes its contents. */
    method SetData(b: nat, data: Contents)
      requires Valid() && b < NBUF && buf[b].refcnt > 0
      modifies buf
      ensures Valid() && buf[..] == old(buf[..])[b := old(buf[b]).(data := data)]
    {
      RefGood(buf[..], ring, disk, stamp, clock, b, buf[b].(data := data));
      buf[b] := buf[b].(data := data);
    }

    /** bwrite: the disk gets the buffer's contents. */
    method Bwrite(b: nat)
      requires Valid() && b < NBUF && buf[b].refcnt > 0 && buf[b].valid && buf[b].dev != 0
      modifies this`disk
      ensures Valid() && disk == old(disk)[(buf[b].dev, buf[b].blockno) := buf[b].data] &&
              SameLogical(buf[..], old(disk), buf[..], disk)
    {
      WriteLogical(buf[..], disk, b);
      disk := disk[(buf[b].dev, buf[b].blockno) := buf[b].data];
    }

    method Bpin(b: nat)
      requires Valid() && b < NBUF
      modifies buf
      ensures Valid() && buf[..] == old(buf[..])[b := old(buf[b]).(refcnt := old(buf[b]).refcnt + 1)]
      ensures SameLogical(old(buf[..]), disk, buf[..], disk)
    {
      ghost var h := buf[..];
      RefGood(h, ring, disk, stamp, clock, b, h[b].(refcnt := h[b].refcnt + 1));
      RefLogical(h, disk, b, h[b].(refcnt := h[b].refcnt + 1));
      buf[b] := buf[b].(refcnt := buf[b].refcnt + 1);
    }

    /** bunpin: unlike brelse it leaves the buffer where it is on the list. */
    method Bunpin(b: nat)
      requires Valid() && b < NBUF && buf[b].refcnt > 0 &&
               (buf[b].refcnt == 1 && buf[b].valid ==> buf[b].data == OnDisk(disk, buf[b].dev, buf[b].blockno))
      modifies buf
      ensures Valid() && buf[..] == old(buf[..])[b := old(buf[b]).(refcnt := old(buf[b]).refcnt - 1)]
      ensures SameLogical(old(buf[..]), disk, buf[..], disk)
    {
      ghost var h := buf[..];
      RefGood(h, ring, disk, stamp, clock, b, h[b].(refcnt := h[b].refcnt - 1));
      RefLogical(h, disk, b, h[b].(refcnt := h[b].refcnt - 1));
      buf[b] := buf[b].(refcnt := buf[b].refcnt - 1);
    }

    /** b goes from where it is on the list to the front. */
    method MoveToFront(b: nat, ghost k: nat)
      requires buf.Length == NBUF + 1 && Linked(buf[..], ring) && 0 < k < |ring| && ring[k] == b
      modifies buf
      ensures Linked(buf[..], MovedRing(ring, k)) && forall c :: 0 <= c < buf.Length ==> SameBuf(buf[c], old(buf[c]))
    {
      ghost var h := buf[..];
      MoveGood(h, ring, k);
      MoveSame(h, b);
      var n, p := buf[b].next, buf[b].prev;
      buf[n] := buf[n].(prev := p);
      buf[p] := buf[p].(next := n);
      assert buf[..] == Unlinked(h, b);
      var f := buf[HEAD].next;
      buf[b] := buf[b].(next := f);
      buf[b] := buf[b].(prev := HEAD);
      buf[f] := buf[f].(prev := b);
      buf[HEAD] := buf[HEAD].(next := b);
      assert buf[..] == Pushed(Unlinked(h, b), b);
    }

    /** brelse: at zero references the buffer becomes the most recently released. */
    method Brelse(b: nat)
      requires Valid() && b < NBUF && buf[b].refcnt > 0 &&
               (buf[b].refcnt == 1 && buf[b].valid ==> buf[b].data == OnDisk(disk, buf[b].dev, buf[b].blockno))
      modifies buf, this`ring, this`stamp, this`clock
      ensures Valid() && SameLogical(old(buf[..]), disk, buf[..], disk)
      ensures forall c :: 0 <= c < NBUF ==>
                SameBuf(buf[c], if c == b then old(buf[b]).(refcnt := old(buf[b]).refcnt - 1) else old(buf[c]))
      ensures stamp == if buf[b].refcnt == 0 then old(stamp)[b := old(clock)] else old(stamp)
    {
      ghost var h := buf[..];
      ghost var x := h[b].(refcnt := h[b].refcnt - 1);
      RefGood(h, ring, disk, stamp, clock, b, x);
      RefLogical(h, disk, b, x);
      buf[b] := buf[b].(refcnt := buf[b].refcnt - 1);
      if buf[b].refcnt == 0 {
        ghost var h1 := buf[..];
        assert h1 == h[b := x];
        Requeue(b);
        SameLogicalTransitive(h, h1, buf[..], disk);
      }
    }

    method Requeue(b: nat)
      requires Valid() && b < NBUF
      modifies buf, this`ring, this`stamp, this`clock
      ensures Valid() && SameLogical(old(buf[..]), disk, buf[..], disk) && stamp == old(stamp)[b := old(clock)]
      ensures forall c :: 0 <= c < NBUF ==> SameBuf(buf[c], old(buf[c]))
    {
      ghost var h := buf[..];
      assert b in ring;
      ghost var k :| 0 <= k < |ring| && ring[k] == b;
      MovedOrder(ring, k, stamp, clock);
      MoveToFront(b, k);
      RelinkedGood(h, ring, disk, stamp, clock, buf[..], MovedRing(ring, k), stamp[b := clock], clock + 1);
      ring, stamp, clock := MovedRing(ring, k), stamp[b := clock], clock + 1;
    }

    /** binit, on the zeroed array of a fresh kernel. */
    method Binit()
      requires buf.Length == NBUF + 1 &&
               forall c :: 0 <= c < NBUF ==> buf[c].dev == 0 && buf[c].refcnt == 0 && !buf[c].valid
      modifies buf, this`ring, this`stamp, this`clock
      ensures Valid() && forall c :: 0 <= c < NBUF ==> buf[c].dev == 0 && buf[c].refcnt == 0
    {
      buf[HEAD] := buf[HEAD].(prev := HEAD);
      buf[HEAD] := buf[HEAD].(next := HEAD);
      ring := [HEAD];
      var b := 0;
      while b < NBUF
        invariant 0 <= b <= NBUF && Linked(buf[..], ring) && |ring| == b + 1
        invariant forall i :: 0 < i < |ring| ==> ring[i] == b - i
        invariant forall c :: 0 <= c < NBUF ==> buf[c].dev == 0 && buf[c].refcnt == 0 && !buf[c].valid
      {
        ghost var h := buf[..];
        PushGood(h, ring, b);
        buf[b] := buf[b].(next := buf[HEAD].next);
        buf[b] := buf[b].(prev := HEAD);
        var f := buf[HEAD].next;
        buf[f] := buf[f].(prev := b);
        buf[HEAD] := buf[HEAD].(next := b);
        assert buf[..] == Pushed(h, b);
        ring := Front(ring, b);
        b := b + 1;
      }
      stamp, clock := seq(NBUF, c => c), NBUF;
      forall c: nat | c < NBUF ensures c in ring {
        assert ring[NBUF - c] == c;
      }
    }
  }

  /** Same buffers up to links, same cache but for the order. */
  lemma RelinkedGood(h: seq<Buf>, ring: seq<nat>, disk: Disk, stamp: seq<int>, clock: int, h': seq<Buf>,
                     ring': seq<nat>, stamp': seq<int>, clock': int)
    requires Good(h, ring, disk, stamp, clock) && |h'| == |h| && forall c :: 0 <= c < |h| ==> SameBuf(h'[c], h[c])
    requires Linked(h', ring') && Complete(ring') && Ordered(ring', stamp', clock')
    ensures Good(h', ring', disk, stamp', clock') && SameLogical(h, disk, h', disk)
  {
    forall b: nat, c: nat | b < NBUF && c < NBUF && h'[b].dev == h'[c].dev != 0 && h'[b].blockno == h'[c].blockno
      ensures b == c
    {
      assert SameBuf(h'[b], h[b]) && SameBuf(h'[c], h[c]);
    }
    forall d: nat, m: nat, v: Contents | d != 0 && Logical(h, disk, d, m, v) ensures Logical(h', disk, d, m, v) {
      forall c: nat ensures Holds(h', c, d, m) <==> Holds(h, c, d, m) {
        if c < NBUF {
          assert SameBuf(h'[c], h[c]);
        }
      }
      if forall b: nat :: Holds(h', b, d, m) ==> !h'[b].valid {
        forall b: nat | Holds(h, b, d, m) ensures !h[b].valid {
          assert Holds(h', b, d, m);
        }
      }
    }
  }

  function MovedRing(ring: seq<nat>, k: nat): seq<nat>
    requires 0 < k < |ring|
  {
    Front(Without(ring, k), ring[k])
  }

  lemma MovedOrder(ring: seq<nat>, k: nat, stamp: seq<int>, clock: int)
    requires 0 < k < |ring| && Distinct(ring) && Complete(ring) && Ordered(ring, stamp, clock)
    ensures Complete(MovedRing(ring, k)) && Ordered(MovedRing(ring, k), stamp[ring[k] := clock], clock + 1)
  {
    var ring', b := MovedRing(ring, k), ring[k];
    forall c: nat | c < NBUF ensures c in ring' {
      assert c in ring;
      var j :| 0 <= j < |ring| && ring[j] == c;
      assert c == ring'[if j == k then 1 else if j == 0 then 0 else if j < k then j + 1 else j];
    }
    forall i | 1 < i < |ring'| ensures ring'[i] == ring[if i <= k then i - 1 else i] {
    }
  }

  lemma MoveGood(h: seq<Buf>, ring: seq<nat>, k: nat)
    requires |h| == NBUF + 1 && Linked(h, ring) && 0 < k < |ring|
    ensures var b := ring[k]; b < |h| && h[b].next < |h| && h[b].prev < |h| && Unlinked(h, b)[HEAD].next < |h| &&
                              Linked(Pushed(Unlinked(h, b), b), MovedRing(ring, k))
  {
    UnlinkGood(h, ring, k);
    var h1, ring1, b := Unlinked(h, ring[k]), Without(ring, k), ring[k];
    forall j | 0 <= j < |ring1| ensures ring1[j] != b {
      assert ring1[j] == ring[if j < k then j else j + 1];
    }
    PushGood(h1, ring1, b);
  }

  predicate AllSame(h: seq<Buf>, h': seq<Buf>) {
    |h'| == |h| && forall c :: 0 <= c < |h| ==> SameBuf(h'[c], h[c])
  }

  lemma SetSame(h: seq<Buf>, h1: seq<Buf>, b: nat, x: nat)
    requires AllSame(h, h1) && b < |h1|
    ensures AllSame(h, SetPrev(h1, b, x)) && AllSame(h, SetNext(h1, b, x))
  {
  }

  lemma MoveSame(h: seq<Buf>, b: nat)
    requires |h| == NBUF + 1 && b < |h| && h[b].next < |h| && h[b].prev < |h| && Unlinked(h, b)[HEAD].next < |h|
    ensures AllSame(h, Pushed(Unlinked(h, b), b))
  {
    var n, p := h[b].next, h[b].prev;
    SetSame(h, h, n, p);
    SetSame(h, SetPrev(h, n, p), p, n);
    var h1 := Unlinked(h, b);
    var f := h1[HEAD].next;
    SetSame(h, h1, b, f);
    SetSame(h, SetNext(h1, b, f), b, HEAD);
    SetSame(h, SetPrev(SetNext(h1, b, f), b, HEAD), f, b);
    SetSame(h, SetPrev(SetPrev(SetNext(h1, b, f), b, HEAD), f, b), HEAD, b);
  }

  lemma SameLogicalTransitive(h: seq<Buf>, h1: seq<Buf>, h2: seq<Buf>, disk: Disk)
    requires SameLogical(h, disk, h1, disk) && SameLogical(h1, disk, h2, disk)
    ensures SameLogical(h, disk, h2, disk)
  {
  }

  /** Filling an empty buffer from the disk changes no block. */
  lemma ReadLogical(h: seq<Buf>, disk: Disk, b: nat)
    requires |h| == NBUF + 1 && Unique(h) && b < NBUF && !h[b].valid
    ensures SameLogical(h, disk, h[b := h[b].(data := OnDisk(disk, h[b].dev, h[b].blockno), valid := true)], disk)
  {
    var h' := h[b := h[b].(data := OnDisk(disk, h[b].dev, h[b].blockno), valid := true)];
    forall d: nat, m: nat, v: Contents | d != 0 && Logical(h, disk, d, m, v) ensures Logical(h', disk, d, m, v) {
      assert forall c: nat :: Holds(h', c, d, m) <==> Holds(h, c, d, m);
      if Holds(h, b, d, m) {
        assert forall c: nat :: Holds(h, c, d, m) ==> c == b;
        assert Holds(h', b, d, m);
      }
    }
  }

  /** Writing a buffer to the disk changes no block. */
  lemma WriteLogical(h: seq<Buf>, disk: Disk, b: nat)
    requires |h| == NBUF + 1 && Unique(h) && Clean(h, disk) && b < NBUF && h[b].valid && h[b].dev != 0 &&
             h[b].refcnt > 0
    ensures var disk' := disk[(h[b].dev, h[b].blockno) := h[b].data]; SameLogical(h, disk, h, disk') && Clean(h, disk')
  {
    var disk' := disk[(h[b].dev, h[b].blockno) := h[b].data];
    forall d: nat, m: nat, v: Contents | d != 0 && Logical(h, disk, d, m, v) ensures Logical(h, disk', d, m, v) {
      if d == h[b].dev && m == h[b].blockno {
        assert Holds(h, b, d, m);
      }
    }
  }

  /** A valid buffer holds what its block held. */
  lemma FromBuffer(h: seq<Buf>, h': seq<Buf>, disk: Disk, b: nat)
    requires |h| == NBUF + 1 == |h'| && Unique(h) && Unique(h') && SameLogical(h, disk, h', disk) && b < NBUF &&
             h'[b].valid && h'[b].dev != 0
    ensures Logical(h, disk, h'[b].dev, h'[b].blockno, h'[b].data)
  {
    var d, m := h'[b].dev, h'[b].blockno;
    assert Holds(h', b, d, m);
    var v := Value(h, disk, d, m);
    assert Logical(h', disk, d, m, v);
  }

  lemma Value(h: seq<Buf>, disk: Disk, d: nat, m: nat) returns (v: Contents)
    requires |h| == NBUF + 1 && Unique(h) && d != 0
    ensures Logical(h, disk, d, m, v)
  {
    if c: nat :| Holds(h, c, d, m) && h[c].valid {
      v := h[c].data;
      assert forall e: nat :: Holds(h, e, d, m) ==> e == c;
    } else {
      v := OnDisk(disk, d, m);
    }
  }

  lemma OldestUnused(h: seq<Buf>, ring: seq<nat>, stamp: seq<int>, clock: int, i: nat)
    requires |h| == NBUF + 1 && Complete(ring) && Ordered(ring, stamp, clock) && 0 < i < |ring|
    requires forall j :: i < j < |ring| ==> ring[j] < NBUF && h[ring[j]].refcnt > 0
    ensures forall c: nat :: c < NBUF && h[c].refcnt == 0 && c != ring[0] ==> stamp[ring[i]] <= stamp[c]
  {
    forall c: nat | c < NBUF && h[c].refcnt == 0 && c != ring[0] ensures stamp[ring[i]] <= stamp[c] {
      assert c in ring;
      var j :| 0 <= j < |ring| && ring[j] == c;
    }
  }
}
