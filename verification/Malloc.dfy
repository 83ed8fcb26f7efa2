/**
 The Kernighan and Ritchie allocator (user/umalloc.c).

 Addresses count headers.  The free list is circular through `hdr[_].ptr` and starts, in address
 order, with the static header `base` of size 0.  Two ghosts describe the arena: `own` maps every
 unit obtained from sbrk to the start of the one block it is in, and `live` holds the starts of the
 allocated blocks.
 */
module Malloc {

  datatype Header = Header(ptr: nat, size: nat)
  type Headers = map<nat, Header>

  // ---------------------------------------------------------------- the arena

  /** The element after index i, around the circle. */
  function Next(list: seq<nat>, i: nat): nat
    requires i < |list|
  {
    if i + 1 < |list| then list[i + 1] else list[0]
  }

  predicate NodeGood(hdr: Headers, list: seq<nat>, i: nat) {
    i < |list| ==> list[i] in hdr && hdr[list[i]].ptr == Next(list, i) && (i + 1 < |list| ==> list[i] < list[i + 1])
  }

  /** A block of at least one unit, all of them its own. */
  ghost predicate BlockGood(hdr: Headers, own: map<nat, nat>, s: nat) {
    s in hdr && hdr[s].size > 0 && forall u: nat :: s <= u < s + hdr[s].size ==> u in own && own[u] == s
  }

  predicate UnitGood(base: nat, hdr: Headers, list: seq<nat>, own: map<nat, nat>, live: set<nat>, u: nat) {
    u in own ==> base < own[u] <= u && own[u] in hdr && u < own[u] + hdr[own[u]].size &&
                 (own[u] in live || own[u] in list)
  }

  /** Everything but coalescing. */
  ghost predicate Loose(base: nat, hdr: Headers, list: seq<nat>, own: map<nat, nat>, live: set<nat>) {
    |list| > 0 && list[0] == base && base in hdr && hdr[base].size == 0 &&
    (forall i: nat :: NodeGood(hdr, list, i)) &&
    (forall i: nat :: 0 < i < |list| ==> BlockGood(hdr, own, list[i])) &&
    (forall s: nat :: s in live ==> s !in list && BlockGood(hdr, own, s)) &&
    forall u: nat :: UnitGood(base, hdr, list, own, live, u)
  }

  /** The blocks at i and i + 1 do not touch. */
  predicate Gap(hdr: Headers, list: seq<nat>, i: nat) {
    i + 1 < |list| && list[i] in hdr ==> list[i] + hdr[list[i]].size < list[i + 1]
  }

  ghost predicate Good(base: nat, hdr: Headers, list: seq<nat>, own: map<nat, nat>, live: set<nat>) {
    Loose(base, hdr, list, own, live) && forall i: nat :: Gap(hdr, list, i)
  }

  lemma {:induction false} Sorted(hdr: Headers, list: seq<nat>, i: nat, j: nat)
    requires (forall k: nat :: NodeGood(hdr, list, k)) && i < j < |list|
    ensures list[i] < list[j]
    decreases j
  {
    assert NodeGood(hdr, list, j - 1);
    if i < j - 1 {
      Sorted(hdr, list, i, j - 1);
    }
  }

  lemma Distinct(hdr: Headers, list: seq<nat>, i: nat, j: nat)
    requires (forall k: nat :: NodeGood(hdr, list, k)) && i < |list| && j < |list|
    ensures list[i] == list[j] <==> i == j
    ensures list[i] < list[j] <==> i < j
  {
    if i < j {
      Sorted(hdr, list, i, j);
    } else if j < i {
      Sorted(hdr, list, j, i);
    }
  }

  /** Two blocks that start at different places share no unit. */
  lemma Apart(hdr: Headers, own: map<nat, nat>, s: nat, t: nat)
    requires BlockGood(hdr, own, s) && BlockGood(hdr, own, t) && s < t
    ensures s + hdr[s].size <= t
  {
    assert t in own && own[t] == t;
  }

  // ---------------------------------------------------------------- inserting a block

  function Linked(hdr: Headers, p: nat, bp: nat): Headers
    requires p in hdr && bp in hdr
  {
    hdr[bp := Header(hdr[p].ptr, hdr[bp].size)][p := Header(bp, hdr[p].size)]
  }

  function Inserted(list: seq<nat>, i: nat, bp: nat): seq<nat>
    requires i < |list|
  {
    list[..i + 1] + [bp] + list[i + 1..]
  }

  /** bp belongs between index i and the next. */
  predicate Between(list: seq<nat>, i: nat, bp: nat) {
    i < |list| && list[i] < bp && (i + 1 < |list| ==> bp < list[i + 1])
  }

  lemma InsertNodes(hdr: Headers, list: seq<nat>, i: nat, bp: nat, hdr': Headers, list': seq<nat>)
    requires (forall k: nat :: NodeGood(hdr, list, k)) && Between(list, i, bp) && bp !in list
    requires list[i] in hdr && bp in hdr && hdr' == Linked(hdr, list[i], bp) && list' == Inserted(list, i, bp)
    ensures forall k: nat :: NodeGood(hdr', list', k)
    ensures forall k: nat :: k < i && Gap(hdr, list, k) ==> Gap(hdr', list', k)
    ensures forall k: nat :: k > i && Gap(hdr, list, k) ==> Gap(hdr', list', k + 1)
  {
    assert NodeGood(hdr, list, i);
    forall k: nat | k <= i ensures NodeGood(hdr', list', k) && (k < i && Gap(hdr, list, k) ==> Gap(hdr', list', k)) {
      assert NodeGood(hdr, list, k);
      Distinct(hdr, list, i, k);
    }
    assert NodeGood(hdr', list', i + 1);
    forall k: nat | k > i + 1 ensures NodeGood(hdr', list', k) {
      assert NodeGood(hdr, list, k - 1);
      if k - 1 < |list| {
        Distinct(hdr, list, i, k - 1);
      }
    }
    forall k: nat | k > i && Gap(hdr, list, k) ensures Gap(hdr', list', k + 1) {
      if k < |list| {
        Distinct(hdr, list, i, k);
      }
    }
  }

  /** A live block put into the list at its place in the order. */
  lemma InsertLoose(base: nat, hdr: Headers, list: seq<nat>, own: map<nat, nat>, live: set<nat>, i: nat, bp: nat,
                    hdr': Headers, list': seq<nat>)
    requires Loose(base, hdr, list, own, live) && bp in live && Between(list, i, bp)
    requires list[i] in hdr && bp in hdr && hdr' == Linked(hdr, list[i], bp) && list' == Inserted(list, i, bp)
    ensures Loose(base, hdr', list', own, live - {bp})
  {
    InsertNodes(hdr, list, i, bp, hdr', list');
    forall s: nat | BlockGood(hdr, own, s) ensures BlockGood(hdr', own, s) {
    }
    forall k: nat | 0 < k < |list'| ensures BlockGood(hdr', own, list'[k]) {
      assert list'[k] == bp || list'[k] == list[if k <= i then k else k - 1];
    }
    forall u: nat ensures UnitGood(base, hdr', list', own, live - {bp}, u) {
      assert UnitGood(base, hdr, list, own, live, u);
    }
  }

  // ---------------------------------------------------------------- merging neighbours

  /** The block at i takes over the one after it. */
  function Merged(hdr: Headers, p: nat, q: nat): Headers
    requires p in hdr && q in hdr
  {
    hdr[p := Header(hdr[q].ptr, hdr[p].size + hdr[q].size)]
  }

  function Without(list: seq<nat>, i: nat): seq<nat>
    requires i < |list|
  {
    list[..i] + list[i + 1..]
  }

  ghost function Taken(own: map<nat, nat>, p: nat, q: nat): map<nat, nat> {
    map u | u in own :: if own[u] == q then p else own[u]
  }

  lemma MergeNodes(hdr: Headers, list: seq<nat>, i: nat, hdr': Headers, list': seq<nat>)
    requires (forall k: nat :: NodeGood(hdr, list, k)) && 0 < i && i + 1 < |list| && list[i] in hdr &&
             list[i + 1] in hdr
    requires hdr' == Merged(hdr, list[i], list[i + 1]) && list' == Without(list, i + 1) &&
             list[i] + hdr[list[i]].size == list[i + 1]
    ensures forall k: nat :: NodeGood(hdr', list', k)
    ensures forall k: nat :: k < i && Gap(hdr, list, k) ==> Gap(hdr', list', k)
    ensures forall k: nat :: k > i && Gap(hdr, list, k) ==> Gap(hdr', list', k - 1)
  {
    forall k: nat | k <= i ensures NodeGood(hdr', list', k) && (k < i && Gap(hdr, list, k) ==> Gap(hdr', list', k)) {
      assert NodeGood(hdr, list, k) && NodeGood(hdr, list, i + 1);
      Distinct(hdr, list, i, k);
    }
    forall k: nat | k > i ensures NodeGood(hdr', list', k) {
      assert NodeGood(hdr, list, k + 1);
      if k + 1 < |list| {
        Distinct(hdr, list, i, k + 1);
      }
    }
    forall k: nat | k > i && Gap(hdr, list, k) ensures Gap(hdr', list', k - 1) {
      if k < |list| {
        Distinct(hdr, list, i, k);
      }
      assert NodeGood(hdr, list, k);
    }
  }

  lemma MergeLoose(base: nat, hdr: Headers, list: seq<nat>, own: map<nat, nat>, live: set<nat>, i: nat, hdr': Headers,
                   list': seq<nat>, own': map<nat, nat>)
    requires Loose(base, hdr, list, own, live) && 0 < i && i + 1 < |list| && list[i] in hdr && list[i + 1] in hdr
    requires hdr' == Merged(hdr, list[i], list[i + 1]) && list' == Without(list, i + 1) &&
             list[i] + hdr[list[i]].size == list[i + 1]
    requires own' == Taken(own, list[i], list[i + 1])
    ensures Loose(base, hdr', list', own', live)
  {
    var p, q := list[i], list[i + 1];
    MergeNodes(hdr, list, i, hdr', list');
    Distinct(hdr, list, 0, i);
    Distinct(hdr, list, i, i + 1);
    assert BlockGood(hdr, own, p) && BlockGood(hdr, own, q);
    assert BlockGood(hdr', own', p);
    forall s: nat | BlockGood(hdr, own, s) && s != p && s != q ensures BlockGood(hdr', own', s) {
    }
    forall k: nat | 0 < k < |list'| ensures BlockGood(hdr', own', list'[k]) {
      var l := if k <= i then k else k + 1;
      assert list'[k] == list[l] && BlockGood(hdr, own, list[l]);
      Distinct(hdr, list, i, l);
      Distinct(hdr, list, i + 1, l);
    }
    forall s: nat | s in live ensures s !in list' && BlockGood(hdr', own', s) {
      assert BlockGood(hdr, own, s);
    }
    forall u: nat ensures UnitGood(base, hdr', list', own', live, u) {
      assert UnitGood(base, hdr, list, own, live, u);
      assert list'[i] == p;
      if u in own && own[u] in list && own[u] != q {
        KeptUnlessTaken(list, i + 1, own[u]);
      }
    }
  }

  lemma KeptUnlessTaken(list: seq<nat>, i: nat, s: nat)
    requires i < |list| && s in list && s != list[i]
    ensures s in Without(list, i)
  {
    var k :| 0 <= k < |list| && list[k] == s;
    assert s == Without(list, i)[if k < i then k else k - 1];
  }

  // ---------------------------------------------------------------- free

  /** Where a block goes in address order. */
  lemma {:induction false} PlaceOf(list: seq<nat>, bp: nat, n: nat) returns (t: nat)
    requires 0 < n <= |list| && list[0] < bp && bp !in list && (n < |list| ==> bp < list[n])
    ensures Between(list, t, bp)
    decreases n
  {
    if list[n - 1] < bp {
      t := n - 1;
    } else {
      t := PlaceOf(list, bp, n - 1);
    }
  }

  /** Steps from index i to index t around a circle of n. */
  function Distance(i: nat, t: nat, n: nat): int { if i <= t then t - i else t + n - i }

  /** Live blocks are where they were. */
  ghost predicate LiveKept(hdr: Headers, own: map<nat, nat>, hdr': Headers, own': map<nat, nat>, live: set<nat>) {
    own'.Keys == own.Keys && forall s: nat :: s in live && s in hdr ==> s in hdr' && hdr'[s] == hdr[s]
  }

  // What free does to the list at index i, in two halves: link bp in and join it to the block above, then to the one
  // below.

  predicate JoinsUp(hdr: Headers, list: seq<nat>, i: nat, bp: nat)
    requires bp in hdr
  {
    i + 1 < |list| && bp + hdr[bp].size == list[i + 1]
  }

  predicate JoinsDown(hdr: Headers, list: seq<nat>, i: nat, bp: nat)
    requires i < |list| && list[i] in hdr
  {
    list[i] + hdr[list[i]].size == bp
  }

  ghost function UpHdr(hdr: Headers, list: seq<nat>, i: nat, bp: nat): Headers
    requires i < |list| && list[i] in hdr && bp in hdr && (i + 1 < |list| ==> list[i + 1] in hdr)
  {
    var h := Linked(hdr, list[i], bp);
    if JoinsUp(hdr, list, i, bp) then Merged(h, bp, list[i + 1]) else h
  }

  ghost function UpList(hdr: Headers, list: seq<nat>, i: nat, bp: nat): seq<nat>
    requires i < |list| && bp in hdr
  {
    if JoinsUp(hdr, list, i, bp) then Without(Inserted(list, i, bp), i + 2) else Inserted(list, i, bp)
  }

  ghost function UpOwn(hdr: Headers, list: seq<nat>, own: map<nat, nat>, i: nat, bp: nat): map<nat, nat>
    requires i < |list| && bp in hdr
  {
    if JoinsUp(hdr, list, i, bp) then Taken(own, bp, list[i + 1]) else own
  }

  lemma UpLoose(base: nat, hdr: Headers, list: seq<nat>, own: map<nat, nat>, live: set<nat>, i: nat, bp: nat)
    requires Good(base, hdr, list, own, live) && bp in live && Between(list, i, bp)
    ensures list[i] in hdr && bp in hdr && (i + 1 < |list| ==> list[i + 1] in hdr)
    ensures Loose(base, UpHdr(hdr, list, i, bp), UpList(hdr, list, i, bp), UpOwn(hdr, list, own, i, bp), live - {bp})
    ensures forall k: nat :: k != i ==> Gap(UpHdr(hdr, list, i, bp), UpList(hdr, list, i, bp), k)
  {
    assert NodeGood(hdr, list, i) && NodeGood(hdr, list, i + 1) && BlockGood(hdr, own, bp);
    var hdr1, list1 := Linked(hdr, list[i], bp), Inserted(list, i, bp);
    InsertLoose(base, hdr, list, own, live, i, bp, hdr1, list1);
    InsertNodes(hdr, list, i, bp, hdr1, list1);
    forall k: nat | k != i && k != i + 1 ensures Gap(hdr1, list1, k) {
      assert Gap(hdr, list, k);
      if k > i + 1 {
        assert Gap(hdr, list, k - 1);
      }
    }
    if JoinsUp(hdr, list, i, bp) {
      var hdr2, list2 := Merged(hdr1, bp, list[i + 1]), Without(list1, i + 2);
      MergeLoose(base, hdr1, list1, own, live - {bp}, i + 1, hdr2, list2, Taken(own, bp, list[i + 1]));
      MergeNodes(hdr1, list1, i + 1, hdr2, list2);
      forall k: nat | k != i ensures Gap(hdr2, list2, k) {
        assert k > i ==> Gap(hdr1, list1, k + 1);
        assert Gap(hdr1, list1, k) || k == i + 1;
      }
    } else if i + 1 < |list| {
      assert BlockGood(hdr, own, list[i + 1]);
      Apart(hdr, own, bp, list[i + 1]);
    }
  }

  ghost function FreedHdr(hdr: Headers, list: seq<nat>, i: nat, bp: nat): Headers
    requires i < |list| && list[i] in hdr && bp in hdr && (i + 1 < |list| ==> list[i + 1] in hdr)
  {
    var h := UpHdr(hdr, list, i, bp);
    if JoinsDown(hdr, list, i, bp) then Merged(h, list[i], bp) else h
  }

  ghost function FreedList(hdr: Headers, list: seq<nat>, i: nat, bp: nat): seq<nat>
    requires i < |list| && list[i] in hdr && bp in hdr
  {
    var l := UpList(hdr, list, i, bp);
    if JoinsDown(hdr, list, i, bp) then Without(l, i + 1) else l
  }

  ghost function FreedOwn(hdr: Headers, list: seq<nat>, own: map<nat, nat>, i: nat, bp: nat): map<nat, nat>
    requires i < |list| && list[i] in hdr && bp in hdr
  {
    var o := UpOwn(hdr, list, own, i, bp);
    if JoinsDown(hdr, list, i, bp) then Taken(o, list[i], bp) else o
  }

  lemma FreeGood(base: nat, hdr: Headers, list: seq<nat>, own: map<nat, nat>, live: set<nat>, i: nat, bp: nat)
    requires Good(base, hdr, list, own, live) && bp in live && Between(list, i, bp)
    ensures list[i] in hdr && bp in hdr && (i + 1 < |list| ==> list[i + 1] in hdr)
    ensures Good(base, FreedHdr(hdr, list, i, bp), FreedList(hdr, list, i, bp), FreedOwn(hdr, list, own, i, bp),
                 live - {bp})
    ensures list[i] in FreedList(hdr, list, i, bp)
  {
    UpLoose(base, hdr, list, own, live, i, bp);
    var hdr2, list2, own2 := UpHdr(hdr, list, i, bp), UpList(hdr, list, i, bp), UpOwn(hdr, list, own, i, bp);
    assert list2[i] == list[i] && list2[i + 1] == bp;
    assert hdr2[list[i]].size == hdr[list[i]].size;
    if JoinsDown(hdr, list, i, bp) {
      assert i > 0;
      var hdr3, list3 := Merged(hdr2, list[i], bp), Without(list2, i + 1);
      MergeLoose(base, hdr2, list2, own2, live - {bp}, i, hdr3, list3, Taken(own2, list[i], bp));
      MergeNodes(hdr2, list2, i, hdr3, list3);
      forall k: nat ensures Gap(hdr3, list3, k) {
        assert k >= i ==> Gap(hdr2, list2, k + 1);
      }
      assert list3[i] == list[i];
    } else if i > 0 {
      assert BlockGood(hdr, own, list[i]) && BlockGood(hdr, own, bp);
      Apart(hdr, own, list[i], bp);
    }
  }

  /** The freed block's units are now in a free block at least as large; no other live block is touched. */
  lemma FreeKept(base: nat, hdr: Headers, list: seq<nat>, own: map<nat, nat>, live: set<nat>, i: nat, bp: nat)
    requires Good(base, hdr, list, own, live) && bp in live && Between(list, i, bp)
    ensures list[i] in hdr && bp in hdr && (i + 1 < |list| ==> list[i + 1] in hdr)
    ensures LiveKept(hdr, own, FreedHdr(hdr, list, i, bp), FreedOwn(hdr, list, own, i, bp), live - {bp})
    ensures Larger(FreedHdr(hdr, list, i, bp), FreedList(hdr, list, i, bp), hdr[bp].size)
  {
    UpLoose(base, hdr, list, own, live, i, bp);
    var list3 := FreedList(hdr, list, i, bp);
    if JoinsDown(hdr, list, i, bp) {
      assert list3[i] == list[i];
    } else {
      assert list3[i + 1] == bp;
    }
    assert forall s: nat :: s in live - {bp} ==> s !in list;
  }

  /** Some free block has at least n units. */
  ghost predicate Larger(hdr: Headers, list: seq<nat>, n: nat) {
    exists k: nat :: k < |list| && list[k] in hdr && hdr[list[k]].size >= n
  }

  // ---------------------------------------------------------------- malloc

  function SetSize(hdr: Headers, p: nat, n: nat): Headers {
    hdr[p := Header(if p in hdr then hdr[p].ptr else 0, n)]
  }

  lemma UnlinkNodes(hdr: Headers, list: seq<nat>, k: nat, hdr': Headers, list': seq<nat>)
    requires (forall j: nat :: NodeGood(hdr, list, j)) && forall j: nat :: Gap(hdr, list, j)
    requires 0 < k < |list| && list[k - 1] in hdr && list[k] in hdr
    requires hdr' == hdr[list[k - 1] := Header(hdr[list[k]].ptr, hdr[list[k - 1]].size)] && list' == Without(list, k)
    ensures forall j: nat :: NodeGood(hdr', list', j) && Gap(hdr', list', j)
  {
    assert NodeGood(hdr, list, k) && NodeGood(hdr, list, k - 1) && Gap(hdr, list, k - 1);
    forall j: nat ensures NodeGood(hdr', list', j) && Gap(hdr', list', j) {
      assert NodeGood(hdr, list, j) && NodeGood(hdr, list, j + 1) && Gap(hdr, list, j) && Gap(hdr, list, j + 1);
      if j < |list| {
        Distinct(hdr, list, k - 1, j);
      }
      if j + 1 < |list| {
        Distinct(hdr, list, k - 1, j + 1);
      }
    }
  }

  /** A whole free block leaves the list. */
  lemma UnlinkGood(base: nat, hdr: Headers, list: seq<nat>, own: map<nat, nat>, live: set<nat>, k: nat, hdr': Headers,
                   list': seq<nat>)
    requires Good(base, hdr, list, own, live) && 0 < k < |list| && list[k - 1] in hdr && list[k] in hdr
    requires hdr' == hdr[list[k - 1] := Header(hdr[list[k]].ptr, hdr[list[k - 1]].size)] && list' == Without(list, k)
    ensures Good(base, hdr', list', own, live + {list[k]})
  {
    var p := list[k];
    assert NodeGood(hdr, list, k) && NodeGood(hdr, list, k - 1) && Gap(hdr, list, k - 1);
    Distinct(hdr, list, k - 1, k);
    UnlinkNodes(hdr, list, k, hdr', list');
    hide NodeGood, Gap;
    forall s: nat | BlockGood(hdr, own, s) ensures BlockGood(hdr', own, s) {
    }
    forall j: nat | 0 < j < |list'| ensures BlockGood(hdr', own, list'[j]) {
      assert list'[j] == list[if j < k then j else j + 1];
    }
    forall j: nat | j < |list'| ensures list'[j] != p {
      Distinct(hdr, list, k, if j < k then j else j + 1);
    }
    forall u: nat ensures UnitGood(base, hdr', list', own, live + {p}, u) {
      assert UnitGood(base, hdr, list, own, live, u);
      if u in own && own[u] in list && own[u] != p {
        KeptUnlessTaken(list, k, own[u]);
      }
    }
  }

  ghost function Split(own: map<nat, nat>, p: nat, q: nat): map<nat, nat> {
    map u | u in own :: if own[u] == p && q <= u then q else own[u]
  }

  lemma SplitNodes(base: nat, hdr: Headers, list: seq<nat>, own: map<nat, nat>, live: set<nat>, k: nat, n: nat, q: nat,
                   hdr': Headers)
    requires Good(base, hdr, list, own, live) && 0 < k < |list| && list[k] in hdr && 0 < n < hdr[list[k]].size
    requires q == list[k] + hdr[list[k]].size - n && hdr' == SetSize(SetSize(hdr, list[k], hdr[list[k]].size - n), q, n)
    ensures q !in list && forall j: nat :: NodeGood(hdr', list, j) && Gap(hdr', list, j)
  {
    assert BlockGood(hdr, own, list[k]);
    assert q in own && own[q] == list[k];
    Distinct(hdr, list, 0, k);
    forall j: nat | j < |list| ensures list[j] != q {
      assert j > 0 ==> BlockGood(hdr, own, list[j]);
    }
    forall j: nat ensures NodeGood(hdr', list, j) && Gap(hdr', list, j) {
      assert NodeGood(hdr, list, j) && Gap(hdr, list, j);
    }
  }

  /** The tail of a free block becomes a live block. */
  lemma SplitGood(base: nat, hdr: Headers, list: seq<nat>, own: map<nat, nat>, live: set<nat>, k: nat, n: nat, q: nat,
                  hdr': Headers, own': map<nat, nat>)
    requires Good(base, hdr, list, own, live) && 0 < k < |list| && list[k] in hdr && 0 < n < hdr[list[k]].size
    requires q == list[k] + hdr[list[k]].size - n && own' == Split(own, list[k], q)
    requires hdr' == SetSize(SetSize(hdr, list[k], hdr[list[k]].size - n), q, n)
    ensures Good(base, hdr', list, own', live + {q}) && q !in live && q !in list
  {
    var p := list[k];
    SplitNodes(base, hdr, list, own, live, k, n, q, hdr');
    Distinct(hdr, list, 0, k);
    assert BlockGood(hdr, own, p);
    assert q in own && own[q] == p;
    assert BlockGood(hdr', own', p) && BlockGood(hdr', own', q);
    forall s: nat | BlockGood(hdr, own, s) ensures s != q && (s != p ==> BlockGood(hdr', own', s)) {
      assert own[s] == s;
    }
    forall j: nat | 0 < j < |list| ensures BlockGood(hdr', own', list[j]) {
      assert BlockGood(hdr, own, list[j]);
    }
    forall u: nat ensures UnitGood(base, hdr', list, own', live + {q}, u) {
      assert UnitGood(base, hdr, list, own, live, u);
    }
  }

  /** nunits: the request rounded up to headers, and one for the block's own. */
  function NUnits(nbytes: nat): nat { (nbytes + 15) / 16 + 1 }

  /** A block of that many units has room for the request behind its header, and no whole unit more. */
  lemma RoomForRequest(nbytes: nat)
    ensures 0 <= 16 * (NUnits(nbytes) - 1) - nbytes < 16
  {
  }

  /** morecore asks for at least 4096 headers. */
  function Request(nu: nat): nat { if nu < 4096 then 4096 else nu }

  const UINT: nat := 0x1_0000_0000

  /** nu * sizeof(Header), cut to the int that sbrk takes. */
  function SbrkArg(nu: nat): int {
    var low := nu * 16 % UINT;
    if low < 0x8000_0000 then low else low - UINT
  }

  /** The units by which sbrk then extends the heap: a negative argument takes memory away. */
  function Granted(nu: nat): nat {
    if SbrkArg(nu) > 0 then SbrkArg(nu) / 16 else 0
  }

  const MAXREQUEST: nat := 0x7FFF_FFE0

  /** The argument of sbrk is the one int that agrees with the bytes wanted modulo 2^32. */
  lemma SbrkArgIs(nu: nat, x: int)
    ensures x == SbrkArg(nu) <==> -0x8000_0000 <= x < 0x8000_0000 && (nu * 16 - x) % 0x1_0000_0000 == 0
  {
    var n := nu * 16;
    assert n == n / UINT * UINT + n % UINT;
    if -0x8000_0000 <= x < 0x8000_0000 && (n - x) % UINT == 0 {
      var d := (n - x) / UINT;
      assert n - x == d * UINT;
      Residue(n, d, x);
    }
  }

  lemma Residue(n: nat, d: int, x: int)
    requires n == d * UINT + x && -0x8000_0000 <= x < 0x8000_0000
    ensures n % UINT == if x >= 0 then x else x + UINT
  {
  }

  /** What a call that grows the heap asks for: 64 kilobytes, or more if the request with its header needs more. */
  lemma AskedFor(nbytes: nat)
    ensures var bytes := 16 * Request(NUnits(nbytes));
            if nbytes <= 65520 then bytes == 65536 else 0 <= bytes - 16 - nbytes < 16
  {
  }

  lemma SmallRequest(nu: nat)
    requires nu < 0x800_0000
    ensures Granted(nu) == nu
  {
    assert nu * 16 % UINT == nu * 16;
  }

  lemma LargeRequest(nu: nat)
    requires 0x800_0000 <= nu
    ensures Granted(nu) < nu
  {
    assert nu * 16 % UINT < UINT;
  }

  /** For every argument of malloc: sbrk grants what morecore records if and only if the request is small enough. */
  lemma GrantExact(nbytes: nat)
    requires nbytes < UINT
    ensures Granted(Request(NUnits(nbytes))) == Request(NUnits(nbytes)) <==> nbytes <= MAXREQUEST
  {
    var nu := Request(NUnits(nbytes));
    if nbytes <= MAXREQUEST {
      assert nu < 0x800_0000;
      SmallRequest(nu);
    } else {
      assert nu >= 0x800_0000;
      LargeRequest(nu);
    }
  }

  /** Two requests that fail: one becomes sbrk(-2^31), which grants nothing; the largest becomes sbrk(16), one header
      for 0x1000_0001 recorded. */
  lemma GrantTooSmall()
    ensures SbrkArg(Request(NUnits(0x7FFF_FFF0))) == -0x8000_0000 && Granted(Request(NUnits(0x7FFF_FFF0))) == 0
    ensures SbrkArg(Request(NUnits(0xFFFF_FFFF))) == 16 && Granted(Request(NUnits(0xFFFF_FFFF))) == 1
    ensures NUnits(0xFFFF_FFFF) == 0x1000_0001
  {
  }

  /** What sbrk answers: a refusal, or the address of memory above everything obtained before. */
  datatype Grant = Refused | At(addr: nat)

  /** n units from `at` on. */
  function Units(at: nat, n: nat): set<nat> {
    if n == 0 then {} else Units(at, n - 1) + {at + n - 1}
  }

  lemma {:induction false} UnitsFrom(at: nat, n: nat)
    ensures forall u: nat :: u in Units(at, n) <==> at <= u < at + n
  {
    if n > 0 {
      UnitsFrom(at, n - 1);
    }
  }

  ghost function Extended(own: map<nat, nat>, at: nat, n: nat): map<nat, nat> {
    own + (map u | u in Units(at, n) :: at)
  }

  /** Fresh memory as one live block. */
  lemma ExtendGood(base: nat, hdr: Headers, list: seq<nat>, own: map<nat, nat>, live: set<nat>, at: nat, n: nat)
    requires Good(base, hdr, list, own, live) && base < at && n > 0 && forall u: nat :: u in own ==> u < at
    ensures Good(base, SetSize(hdr, at, n), list, Extended(own, at, n), live + {at})
    ensures at !in live && at !in list
  {
    var hdr', own' := SetSize(hdr, at, n), Extended(own, at, n);
    UnitsFrom(at, n);
    forall s: nat | BlockGood(hdr, own, s) ensures s < at && BlockGood(hdr', own', s) {
      assert s in own;
    }
    forall j: nat | j < |list| ensures list[j] < at {
      assert j > 0 ==> BlockGood(hdr, own, list[j]);
    }
    forall j: nat ensures NodeGood(hdr', list, j) && Gap(hdr', list, j) {
      assert NodeGood(hdr, list, j) && Gap(hdr, list, j);
    }
    forall j: nat | 0 < j < |list| ensures BlockGood(hdr', own', list[j]) {
      assert BlockGood(hdr, own, list[j]);
    }
    assert BlockGood(hdr', own', at);
    forall u: nat ensures UnitGood(base, hdr', list, own', live + {at}, u) {
      assert UnitGood(base, hdr, list, own, live, u);
    }
  }

  /** A block recorded with n units of which g were granted is sound exactly when g is n. */
  lemma ExtendIff(base: nat, hdr: Headers, list: seq<nat>, own: map<nat, nat>, live: set<nat>, at: nat, n: nat, g: nat)
    requires Good(base, hdr, list, own, live) && base < at && n > 0 && forall u: nat :: u in own ==> u < at
    ensures Good(base, SetSize(hdr, at, n), list, Extended(own, at, g), live + {at}) <==> g == n
  {
    var hdr', own' := SetSize(hdr, at, n), Extended(own, at, g);
    UnitsFrom(at, g);
    if g == n {
      ExtendGood(base, hdr, list, own, live, at, n);
    } else if g < n {
      assert at + g !in own';
      assert !BlockGood(hdr', own', at) && at in live + {at};
    } else {
      assert own'[at + n] == at;
      assert !UnitGood(base, hdr', list, own', live + {at}, at + n);
    }
  }

  /** Steps from the element after index f to index j, around a circle of n. */
  function Pos(f: nat, j: nat, n: nat): int { if j > f then j - f - 1 else j + n - f - 1 }

  /** No block between the one after index f and index k is large enough. */
  ghost predicate TooSmall(hdr: Headers, list: seq<nat>, f: nat, k: nat, n: nat) {
    forall j: nat :: j < |list| && list[j] in hdr && Pos(f, j, |list|) < Pos(f, k, |list|) ==> hdr[list[j]].size < n
  }

  lemma TooSmallNext(hdr: Headers, list: seq<nat>, f: nat, k: nat, n: nat)
    requires f < |list| && k < |list| && k != f && TooSmall(hdr, list, f, k, n) && list[k] in hdr &&
             hdr[list[k]].size < n
    ensures var k' := if k + 1 < |list| then k + 1 else 0;
            TooSmall(hdr, list, f, k', n) && Pos(f, k', |list|) == Pos(f, k, |list|) + 1
  {
    var k' := if k + 1 < |list| then k + 1 else 0;
    forall j: nat | j < |list| && list[j] in hdr && Pos(f, j, |list|) < Pos(f, k', |list|)
      ensures hdr[list[j]].size < n
    {
      assert Pos(f, j, |list|) < Pos(f, k, |list|) || j == k;
    }
  }

  lemma NoneLarger(hdr: Headers, list: seq<nat>, f: nat, n: nat)
    requires f < |list| && TooSmall(hdr, list, f, f, n) && list[f] in hdr && hdr[list[f]].size < n
    ensures !Larger(hdr, list, n)
  {
    forall j: nat | j < |list| && list[j] in hdr ensures hdr[list[j]].size < n {
      if j != f {
        assert Pos(f, j, |list|) < Pos(f, f, |list|);
      }
    }
  }

  class Heap {
    const base: nat
    var hdr: Headers
    var freep: nat
    ghost var list: seq<nat>
    ghost var own: map<nat, nat>
    ghost var live: set<nat>

    ghost predicate Valid() reads this {
      Good(base, hdr, list, own, live) && freep in list
    }

    /** The loop of free: the list element after which bp goes. */
    method Search(bp: nat) returns (p: nat, ghost i: nat)
      requires Valid() && bp in live
      ensures Between(list, i, bp) && p == list[i]
    {
      assert UnitGood(base, hdr, list, own, live, bp) && BlockGood(hdr, own, bp);
      ghost var t := PlaceOf(list, bp, |list|);
      p := freep;
      i :| 0 <= i < |list| && list[i] == freep;
      while true
        invariant i < |list| && p == list[i]
        decreases Distance(i, t, |list|)
      {
        assert NodeGood(hdr, list, i) && NodeGood(hdr, list, 0);
        Distinct(hdr, list, 0, i);
        if bp > p && bp < hdr[p].ptr {
          break;
        }
        if p >= hdr[p].ptr && (bp > p || bp < hdr[p].ptr) {
          break;
        }
        p := hdr[p].ptr;
        i := if i + 1 < |list| then i + 1 else 0;
      }
    }
  
    /** The pointer work of free, once the place is found. */
    method Relink(p: nat, bp: nat, ghost i: nat)
      requires i < |list| && p == list[i] && p in hdr && bp in hdr && p < bp && list[0] < bp
      requires hdr[p].ptr == Next(list, i) && hdr[p].ptr in hdr && (i + 1 < |list| ==> bp < list[i + 1])
      modifies this`hdr
      ensures hdr == FreedHdr(old(hdr), list, i, bp)
    {
      var next := hdr[p].ptr;
      if bp + hdr[bp].size == next {
        hdr := hdr[bp := Header(hdr[bp].ptr, hdr[bp].size + hdr[next].size)];
        hdr := hdr[bp := Header(hdr[next].ptr, hdr[bp].size)];
      } else {
        hdr := hdr[bp := Header(next, hdr[bp].size)];
      }
      if p + hdr[p].size == bp {
        hdr := hdr[p := Header(hdr[p].ptr, hdr[p].size + hdr[bp].size)];
        hdr := hdr[p := Header(hdr[bp].ptr, hdr[p].size)];
      } else {
        hdr := hdr[p := Header(bp, hdr[p].size)];
      }
    }

    /** free */
    method Free(ap: nat)
      requires Valid() && ap > 0 && ap - 1 in live
      modifies this
      ensures Valid() && live == old(live) - {ap - 1} && LiveKept(old(hdr), old(own), hdr, own, live)
      ensures ap - 1 in old(hdr) && Larger(hdr, list, old(hdr)[ap - 1].size)
    {
      var bp := ap - 1;
      ghost var i;
      var p;
      p, i := Search(bp);
      FreeGood(base, hdr, list, own, live, i, bp);
      FreeKept(base, hdr, list, own, live, i, bp);
      assert NodeGood(hdr, list, i) && NodeGood(hdr, list, 0) && UnitGood(base, hdr, list, own, live, bp) &&
             BlockGood(hdr, own, bp);
      Relink(p, bp, i);
      freep := p;
      own := FreedOwn(old(hdr), list, own, i, bp);
      list := FreedList(old(hdr), list, i, bp);
      live := live - {bp};
    }
  
    /** morecore */
    method Morecore(nu: nat, grant: Grant) returns (p: nat)
      requires Valid() && nu > 0 && base > 0
      requires grant.At? ==> Granted(Request(nu)) == Request(nu) && grant.addr > base &&
                             forall u: nat :: u in own ==> u < grant.addr
      modifies this
      ensures Valid() && live == old(live) && (p == 0 <==> grant.Refused?) && (p != 0 ==> p == freep)
      ensures p == 0 ==> hdr == old(hdr) && list == old(list) && own == old(own) && freep == old(freep)
      ensures p != 0 ==> Larger(hdr, list, nu) && own.Keys == old(own).Keys + Units(grant.addr, Granted(Request(nu)))
      ensures forall s: nat :: s in live && s in old(hdr) ==> s in hdr && hdr[s] == old(hdr)[s]
    {
      var nu' := if nu < 4096 then 4096 else nu;
      if grant.Refused? {
        return 0;
      }
      var hp := grant.addr;
      ExtendGood(base, hdr, list, own, live, hp, nu');
      hdr := SetSize(hdr, hp, nu');
      own := Extended(own, hp, Granted(nu'));
      assert own.Keys == old(own).Keys + Units(hp, Granted(nu'));
      live := live + {hp};
      Free(hp + 1);
      p := freep;
      LargerThan(hdr, list, nu', nu);
      ghost var k :| 0 <= k < |list| && list[k] == freep;
      assert NodeGood(hdr, list, k);
      Distinct(hdr, list, 0, k);
    }

    /** Contract of malloc's two ways to take n units out of the free block at index k. */
    ghost predicate CanTake(prevp: nat, p: nat, n: nat, k: nat) reads this {
      Valid() && 0 < k < |list| && list[k] == p && list[k - 1] == prevp && p in hdr && prevp in hdr &&
      0 < n <= hdr[p].size
    }

    /** A free block of exactly n units leaves the list. */
    method TakeWhole(prevp: nat, p: nat, n: nat, ghost k: nat)
      requires CanTake(prevp, p, n, k) && hdr[p].size == n
      modifies this
      ensures Valid() && Took(old(hdr), old(own), old(live), hdr, own, live, p, n) && freep == prevp
    {
      assert forall s: nat :: s in live ==> s !in list;
      Distinct(hdr, list, k - 1, k);
      UnlinkGood(base, hdr, list, own, live, k, hdr[prevp := Header(hdr[p].ptr, hdr[prevp].size)], Without(list, k));
      hdr := hdr[prevp := Header(hdr[p].ptr, hdr[prevp].size)];
      list := Without(list, k);
      assert list[k - 1] == prevp;
      live := live + {p};
      freep := prevp;
    }

    /** The last n units of a larger free block. */
    method TakeTail(prevp: nat, p: nat, n: nat, ghost k: nat) returns (q: nat)
      requires CanTake(prevp, p, n, k) && hdr[p].size > n
      modifies this
      ensures Valid() && Took(old(hdr), old(own), old(live), hdr, own, live, q, n)
      ensures q + n == p + old(hdr)[p].size && freep == prevp
    {
      assert forall s: nat :: s in live ==> s !in list;
      q := p + hdr[p].size - n;
      SplitGood(base, hdr, list, own, live, k, n, q, SetSize(SetSize(hdr, p, hdr[p].size - n), q, n), Split(own, p, q));
      hdr := SetSize(hdr, p, hdr[p].size - n);
      hdr := SetSize(hdr, q, n);
      own := Split(own, p, q);
      live := live + {q};
      freep := prevp;
    }

    /** Where malloc's search stands: at p, index k, with prevp before it; it set out after freep, index f. */
    ghost predicate Cursor(prevp: nat, p: nat, f: nat, k: nat) reads this {
      f < |list| && list[f] == freep && k < |list| && list[k] == p && prevp == list[if k > 0 then k - 1 else |list| - 1]
    }

    /** The search is at freep's successor. */
    method Begin() returns (prevp: nat, p: nat, ghost f: nat, ghost k: nat)
      requires Valid()
      ensures Cursor(prevp, p, f, k) && forall n: nat :: TooSmall(hdr, list, f, k, n)
    {
      f :| 0 <= f < |list| && list[f] == freep;
      assert NodeGood(hdr, list, f);
      prevp := freep;
      p := hdr[prevp].ptr;
      k := if f + 1 < |list| then f + 1 else 0;
    }

    /** On to the next element. */
    method Advance(p: nat, ghost f: nat, ghost k: nat, ghost n: nat) returns (prevp': nat, p': nat, ghost k': nat)
      requires Valid() && f < |list| && k < |list| && list[f] == freep && p == list[k] != freep && p in hdr &&
               hdr[p].size < n
      requires TooSmall(hdr, list, f, k, n)
      ensures Cursor(prevp', p', f, k') && TooSmall(hdr, list, f, k', n) && Pos(f, k', |list|) == Pos(f, k, |list|) + 1
    {
      TooSmallNext(hdr, list, f, k, n);
      assert NodeGood(hdr, list, k);
      prevp', p' := p, hdr[p].ptr;
      k' := if k + 1 < |list| then k + 1 else 0;
    }

    /** malloc, with what sbrk will answer if it is asked. */
    method Malloc(nbytes: nat, grant: Grant) returns (r: nat)
      requires base > 0 && base in hdr && (Valid() || (freep == 0 && own == map[] && live == {}))
      requires grant.At? ==> grant.addr > base && forall u: nat :: u in own ==> u < grant.addr
      requires nbytes < UINT &&
               (nbytes <= MAXREQUEST || grant.Refused? || (freep != 0 && Larger(hdr, list, NUnits(nbytes))))
      modifies this
      ensures Valid()
      ensures r == 0 ==> grant.Refused? && live == old(live) && own == old(own)
      ensures r != 0 ==> r - 1 !in old(live) && live == old(live) + {r - 1} && r - 1 in hdr &&
                         hdr[r - 1].size == NUnits(nbytes) && 0 <= 16 * (hdr[r - 1].size - 1) - nbytes < 16
      ensures own.Keys == old(own).Keys ||
              (grant.At? && own.Keys == old(own).Keys + Units(grant.addr, Granted(Request(NUnits(nbytes)))))
      ensures forall s: nat :: s in old(live) && s in old(hdr) ==> s in hdr && hdr[s] == old(hdr)[s]
      ensures old(freep) != 0 && (r == 0 || own.Keys != old(own).Keys) ==> !Larger(old(hdr), old(list), NUnits(nbytes))
      ensures old(freep) != 0 && Larger(old(hdr), old(list), NUnits(nbytes)) ==>
                r != 0 && FirstFit(old(hdr), old(list), old(freep), NUnits(nbytes), r - 1, freep)
    {
      RoomForRequest(nbytes);
      hide Granted, NUnits, Request, FirstFit, TooSmall, Larger;
      var nunits := NUnits(nbytes);
      if freep == 0 {
        ZeroInList(base, hdr, list, own, live);
        Start();
      }
      var prevp: nat, p: nat;
      ghost var f: nat, k: nat;
      ghost var grown := false;
      prevp, p, f, k := Begin();
      while true
        invariant Valid() && Cursor(prevp, p, f, k) && TooSmall(hdr, list, f, k, nunits) &&
                  (grown ==> Larger(hdr, list, nunits))
        invariant live == old(live) && (!grown ==> own == old(own))
        invariant old(freep) != 0 ==>
                    if grown then !Larger(old(hdr), old(list), nunits)
                    else hdr == old(hdr) && list == old(list) && freep == old(freep)
        invariant grown ==> grant.At? && own.Keys == old(own).Keys + Units(grant.addr, Granted(Request(nunits)))
        invariant forall s: nat :: s in live && s in old(hdr) ==> s in hdr && hdr[s] == old(hdr)[s]
        decreases !grown, |list| - Pos(f, k, |list|)
      {
        assert NodeGood(hdr, list, k);
        if hdr[p].size >= nunits {
          if !grown && old(freep) != 0 {
            FirstFitAt(hdr, list, freep, nunits, f, k);
          }
          r := Take(prevp, p, nunits, k);
          return;
        }
        if p == freep {
          Distinct(hdr, list, f, k);
          NoneLarger(hdr, list, f, nunits);
          GrantExact(nbytes);
          p := Morecore(nunits, grant);
          if p == 0 {
            return 0;
          }
          grown := true;
          prevp, p, f, k := Begin();
        } else {
          prevp, p, k := Advance(p, f, k, nunits);
        }
      }
    }

    /** The block found, whole or its tail. */
    method Take(prevp: nat, p: nat, n: nat, ghost k: nat) returns (r: nat)
      requires Valid() && k < |list| && list[k] == p && prevp == list[if k > 0 then k - 1 else |list| - 1] &&
               p in hdr && 0 < n <= hdr[p].size
      modifies this
      ensures Valid() && r > 0 && Took(old(hdr), old(own), old(live), hdr, own, live, r - 1, n)
      ensures r - 1 + n == p + old(hdr)[p].size && freep == prevp
    {
      assert k > 0 && NodeGood(hdr, list, k - 1);
      var q := p;
      if hdr[p].size == n {
        TakeWhole(prevp, p, n, k);
      } else {
        q := TakeTail(prevp, p, n, k);
      }
      r := q + 1;
    }

    /** The first call: base alone on the list. */
    method Start()
      requires base > 0 && base in hdr && own == map[] && live == {}
      modifies this
      ensures Valid() && own == old(own) && live == old(live)
    {
      hdr := hdr[base := Header(base, hdr[base].size)];
      freep := base;
      hdr := SetSize(hdr, base, 0);
      list := [base];
    }
  }

  /** The n units from q on are the end of the first free block, counted from the one after freep, that has as many, and
      the next search starts there. */
  ghost predicate FirstFit(hdr: Headers, list: seq<nat>, freep: nat, n: nat, q: nat, freep': nat) {
    exists f: nat, k: nat ::
      f < |list| && k < |list| && list[f] == freep && TooSmall(hdr, list, f, k, n) &&
      list[k] in hdr && hdr[list[k]].size >= n && q + n == list[k] + hdr[list[k]].size &&
      freep' == list[if k > 0 then k - 1 else |list| - 1]
  }

  lemma FirstFitAt(hdr: Headers, list: seq<nat>, freep: nat, n: nat, f: nat, k: nat)
    requires f < |list| && k < |list| && list[f] == freep && TooSmall(hdr, list, f, k, n)
    requires list[k] in hdr && hdr[list[k]].size >= n
    ensures FirstFit(hdr, list, freep, n, list[k] + hdr[list[k]].size - n, list[if k > 0 then k - 1 else |list| - 1])
  {
  }

  /** Allocated blocks do not overlap each other, nor a free one. */
  lemma BlocksApart(base: nat, hdr: Headers, list: seq<nat>, own: map<nat, nat>, live: set<nat>, s: nat, t: nat)
    requires Good(base, hdr, list, own, live) && s in live && s != t && (t in live || (t in list && t != base))
    ensures s in hdr && t in hdr && (s + hdr[s].size <= t || t + hdr[t].size <= s)
  {
    assert BlockGood(hdr, own, s);
    if t !in live {
      var k: nat :| k < |list| && list[k] == t;
      assert BlockGood(hdr, own, list[k]);
    }
    assert BlockGood(hdr, own, t);
    assert own[s] == s && own[t] == t;
  }

  /** A block of n units at q is newly live, and the live blocks and the arena are as they were. */
  ghost predicate Took(hdr: Headers, own: map<nat, nat>, live: set<nat>, hdr': Headers, own': map<nat, nat>,
                       live': set<nat>, q: nat, n: nat) {
    q !in live && live' == live + {q} && q in hdr' && hdr'[q].size == n && own'.Keys == own.Keys &&
    forall s: nat :: s in live && s in hdr ==> s in hdr' && hdr'[s] == hdr[s]
  }

  lemma ZeroInList(base: nat, hdr: Headers, list: seq<nat>, own: map<nat, nat>, live: set<nat>)
    requires base > 0
    ensures Good(base, hdr, list, own, live) ==> 0 !in list
  {
    if Good(base, hdr, list, own, live) {
      forall k: nat | k < |list| ensures list[k] > 0 {
        Distinct(hdr, list, 0, k);
      }
    }
  }

  lemma LargerThan(hdr: Headers, list: seq<nat>, m: nat, n: nat)
    requires Larger(hdr, list, m) && n <= m
    ensures Larger(hdr, list, n)
  {
  }

  // ---------------------------------------------------------------- conservation

  /** The units of the blocks that start in `starts`. */
  ghost function Sum(hdr: Headers, starts: set<nat>): nat
    requires forall s :: s in starts ==> s in hdr
  {
    if starts == {} then 0 else var s :| s in starts; hdr[s].size + Sum(hdr, starts - {s})
  }

  function Of(own: map<nat, nat>, starts: set<nat>): set<nat> {
    set u | u in own && own[u] in starts
  }

  lemma {:induction false} UnitsCount(at: nat, n: nat)
    ensures |Units(at, n)| == n
  {
    if n > 0 {
      UnitsCount(at, n - 1);
      UnitsFrom(at, n - 1);
    }
  }

  lemma BlockUnits(hdr: Headers, own: map<nat, nat>, s: nat)
    requires BlockGood(hdr, own, s)
    requires forall u: nat :: u in own ==> own[u] in hdr && own[u] <= u < own[u] + hdr[own[u]].size
    ensures |Of(own, {s})| == hdr[s].size
  {
    UnitsFrom(s, hdr[s].size);
    UnitsCount(s, hdr[s].size);
    assert Of(own, {s}) == Units(s, hdr[s].size);
  }

  lemma OfSplit(own: map<nat, nat>, a: set<nat>, b: set<nat>)
    requires a !! b
    ensures |Of(own, a + b)| == |Of(own, a)| + |Of(own, b)|
  {
    assert Of(own, a + b) == Of(own, a) + Of(own, b);
    assert Of(own, a) !! Of(own, b);
  }

  lemma {:induction false} Counted(hdr: Headers, own: map<nat, nat>, starts: set<nat>)
    requires forall s: nat :: s in starts ==> s in hdr && BlockGood(hdr, own, s)
    requires forall u: nat :: u in own ==> own[u] in hdr && own[u] <= u < own[u] + hdr[own[u]].size
    ensures |Of(own, starts)| == Sum(hdr, starts)
    decreases starts
  {
    if starts != {} {
      var s :| s in starts && Sum(hdr, starts) == hdr[s].size + Sum(hdr, starts - {s});
      Counted(hdr, own, starts - {s});
      BlockUnits(hdr, own, s);
      OfSplit(own, starts - {s}, {s});
      assert starts - {s} + {s} == starts;
    }
  }

  /** The starts of the free blocks. */
  function FreeStarts(list: seq<nat>): set<nat>
    requires |list| > 0
  {
    set k | 0 < k < |list| :: list[k]
  }

  /** Free plus allocated units are the units obtained from sbrk. */
  lemma Conserved(base: nat, hdr: Headers, list: seq<nat>, own: map<nat, nat>, live: set<nat>)
    requires Good(base, hdr, list, own, live)
    ensures (forall s :: s in live ==> s in hdr) && (forall s :: s in FreeStarts(list) ==> s in hdr)
    ensures Sum(hdr, live) + Sum(hdr, FreeStarts(list)) == |own|
  {
    var free := FreeStarts(list);
    forall s: nat | s in free ensures BlockGood(hdr, own, s) {
      var k :| 0 < k < |list| && list[k] == s;
      assert BlockGood(hdr, own, list[k]);
    }
    forall s: nat | s in live ensures BlockGood(hdr, own, s) && s !in free {
    }
    forall u: nat | u in own
      ensures own[u] in hdr && own[u] <= u < own[u] + hdr[own[u]].size && (own[u] in live || own[u] in free)
    {
      assert UnitGood(base, hdr, list, own, live, u);
      if own[u] in list {
        var k :| 0 <= k < |list| && list[k] == own[u];
        assert k > 0;
        assert list[k] in free;
      }
    }
    Counted(hdr, own, live);
    Counted(hdr, own, free);
    OfSplit(own, live, free);
    assert own.Keys == Of(own, live + free);
    assert |own| == |own.Keys|;
  }
}
