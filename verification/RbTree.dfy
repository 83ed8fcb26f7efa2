/**
 The red-black tree behind the CFS run queue, as a value.

 A node is a slot of the process table.  `Tree` is the shape the links of kernel/proc.c
 spell out in memory (module RunQueue ties the two together), and `Ctx` is a tree with one
 subtree taken out: the path from a node up to the root, which is what the repair
 code of kernel/proc.c walks.
 */
module RbTree {

  type Slot = nat

  datatype Color = Red | Black

  datatype Tree = Leaf | Node(color: Color, left: Tree, slot: Slot, right: Tree)

  /** A tree with a hole.  InLeft: the hole is the left child of `slot`. */
  datatype Ctx =
    | Top
    | InLeft(color: Color, up: Ctx, slot: Slot, right: Tree)
    | InRight(color: Color, left: Tree, slot: Slot, up: Ctx)

  function Plug(ctx: Ctx, t: Tree): Tree
    decreases ctx
  {
    match ctx
    case Top => t
    case InLeft(c, up, s, r) => Plug(up, Node(c, t, s, r))
    case InRight(c, l, s, up) => Plug(up, Node(c, l, s, t))
  }

  function InOrder(t: Tree): seq<Slot> {
    match t
    case Leaf => []
    case Node(_, l, s, r) => InOrder(l) + [s] + InOrder(r)
  }

  /** The slots left of the hole, and those right of it. */
  function Before(ctx: Ctx): seq<Slot> {
    match ctx
    case Top => []
    case InLeft(_, up, _, _) => Before(up)
    case InRight(_, l, s, up) => Before(up) + InOrder(l) + [s]
  }

  function After(ctx: Ctx): seq<Slot> {
    match ctx
    case Top => []
    case InLeft(_, up, s, r) => [s] + InOrder(r) + After(up)
    case InRight(_, _, _, up) => After(up)
  }

  lemma {:induction false} PlugInOrder(ctx: Ctx, t: Tree)
    ensures InOrder(Plug(ctx, t)) == Before(ctx) + InOrder(t) + After(ctx)
    decreases ctx
  {
    match ctx
    case Top =>
    case InLeft(c, up, s, r) => PlugInOrder(up, Node(c, t, s, r));
    case InRight(c, l, s, up) => PlugInOrder(up, Node(c, l, s, t));
  }

  // ---------------------------------------------------------------- distinct slots

  function Slots(t: Tree): set<Slot> {
    match t
    case Leaf => {}
    case Node(_, l, s, r) => Slots(l) + {s} + Slots(r)
  }

  function CtxSlots(ctx: Ctx): set<Slot> {
    match ctx
    case Top => {}
    case InLeft(_, up, s, r) => CtxSlots(up) + {s} + Slots(r)
    case InRight(_, l, s, up) => CtxSlots(up) + {s} + Slots(l)
  }

  /** No slot occurs twice. */
  predicate Unique(t: Tree) {
    match t
    case Leaf => true
    case Node(_, l, s, r) =>
      Unique(l) && Unique(r) && s !in Slots(l) && s !in Slots(r) && Slots(l) !! Slots(r)
  }

  predicate CtxUnique(ctx: Ctx) {
    match ctx
    case Top => true
    case InLeft(_, up, s, r) =>
      CtxUnique(up) && Unique(r) && s !in Slots(r) && s !in CtxSlots(up) && Slots(r) !! CtxSlots(up)
    case InRight(_, l, s, up) =>
      CtxUnique(up) && Unique(l) && s !in Slots(l) && s !in CtxSlots(up) && Slots(l) !! CtxSlots(up)
  }

  lemma {:induction false} PlugUnique(ctx: Ctx, t: Tree)
    ensures Slots(Plug(ctx, t)) == CtxSlots(ctx) + Slots(t)
    ensures Unique(Plug(ctx, t)) <==> CtxUnique(ctx) && Unique(t) && CtxSlots(ctx) !! Slots(t)
    decreases ctx
  {
    match ctx
    case Top =>
    case InLeft(c, up, s, r) => PlugUnique(up, Node(c, t, s, r));
    case InRight(c, l, s, up) => PlugUnique(up, Node(c, l, s, t));
  }

  predicate NoDup(q: seq<Slot>) {
    forall i, j :: 0 <= i < j < |q| ==> q[i] != q[j]
  }

  /** Slots and Unique say of a tree what membership and NoDup say of its in-order sequence. */
  lemma {:induction false} SlotsInOrder(t: Tree)
    ensures forall s :: s in Slots(t) <==> s in InOrder(t)
    ensures Unique(t) <==> NoDup(InOrder(t))
  {
    if t.Node? {
      SlotsInOrder(t.left);
      SlotsInOrder(t.right);
      NoDupAround(InOrder(t.left), t.slot, InOrder(t.right));
    }
  }

  lemma NoDupAround(a: seq<Slot>, s: Slot, b: seq<Slot>)
    ensures NoDup(a + [s] + b) <==>
            NoDup(a) && NoDup(b) && s !in a && s !in b && (forall x :: x in a ==> x !in b)
  {
    NoDupConcat(a, [s]);
    NoDupConcat(a + [s], b);
  }

  lemma NoDupConcat(a: seq<Slot>, b: seq<Slot>)
    ensures NoDup(a + b) <==> NoDup(a) && NoDup(b) && (forall x :: x in a ==> x !in b)
  {
    var q := a + b;
    if NoDup(q) {
      forall i, j | 0 <= i < j < |b| ensures b[i] != b[j] {
        assert q[|a| + i] == b[i] && q[|a| + j] == b[j];
      }
      forall x | x in a ensures x !in b {
        var i :| 0 <= i < |a| && a[i] == x;
        forall j | 0 <= j < |b| ensures b[j] != x {
          assert q[i] == x && q[|a| + j] == b[j];
        }
      }
      assert a == q[..|a|];
    } else if NoDup(a) && NoDup(b) && forall x :: x in a ==> x !in b {
      forall i, j | 0 <= i < j < |q| ensures q[i] != q[j] {
        if i < |a| <= j { assert q[i] in a && q[j] in b; }
      }
    }
  }

  lemma {:induction false} CountInOrder(t: Tree)
    requires Unique(t)
    ensures |Slots(t)| == |InOrder(t)|
  {
    if t.Node? {
      CountInOrder(t.left);
      CountInOrder(t.right);
      assert |Slots(t.left) + {t.slot}| == |Slots(t.left)| + 1;
    }
  }

  // ---------------------------------------------------------------- red-black laws

  predicate IsRed(t: Tree) { t.Node? && t.color.Red? }

  predicate NoRedRed(t: Tree) {
    t.Node? ==> NoRedRed(t.left) && NoRedRed(t.right) && (t.color.Red? ==> !IsRed(t.left) && !IsRed(t.right))
  }

  function Weigh(c: Color): nat { if c.Black? then 1 else 0 }

  /** Black nodes on the leftmost path; on every path when the tree is Balanced. */
  function BlackHeight(t: Tree): nat {
    if t.Leaf? then 0 else BlackHeight(t.left) + Weigh(t.color)
  }

  predicate Balanced(t: Tree) {
    t.Node? ==> Balanced(t.left) && Balanced(t.right) && BlackHeight(t.left) == BlackHeight(t.right)
  }

  /** Black root, no red node with a red child, equal black heights. */
  predicate RedBlack(t: Tree) { !IsRed(t) && NoRedRed(t) && Balanced(t) }

  predicate RedHole(ctx: Ctx) { !ctx.Top? && ctx.color.Red? }

  predicate CtxNoRedRed(ctx: Ctx) {
    match ctx
    case Top => true
    case InLeft(c, up, _, r) =>
      CtxNoRedRed(up) && NoRedRed(r) && (c.Red? ==> !IsRed(r) && !up.Top? && !RedHole(up))
    case InRight(c, l, _, up) =>
      CtxNoRedRed(up) && NoRedRed(l) && (c.Red? ==> !IsRed(l) && !up.Top? && !RedHole(up))
  }

  /** All paths agree once a tree of black height `h` fills the hole. */
  predicate CtxBalanced(ctx: Ctx, h: nat) {
    match ctx
    case Top => true
    case InLeft(c, up, _, r) => Balanced(r) && BlackHeight(r) == h && CtxBalanced(up, h + Weigh(c))
    case InRight(c, l, _, up) => Balanced(l) && BlackHeight(l) == h && CtxBalanced(up, h + Weigh(c))
  }

  lemma {:induction false} PlugRedBlack(ctx: Ctx, t: Tree)
    ensures RedBlack(Plug(ctx, t)) <==>
            NoRedRed(t) && Balanced(t) && CtxNoRedRed(ctx) && CtxBalanced(ctx, BlackHeight(t)) &&
            (IsRed(t) ==> !ctx.Top? && !RedHole(ctx))
    decreases ctx
  {
    match ctx
    case Top =>
    case InLeft(c, up, s, r) => PlugRedBlack(up, Node(c, t, s, r));
    case InRight(c, l, s, up) => PlugRedBlack(up, Node(c, l, s, t));
  }

  function Blacken(t: Tree): Tree {
    if t.Leaf? then t else t.(color := Black)
  }

  // ---------------------------------------------------------------- insertion

  /** A red node hangs from `ctx`, and nothing else is wrong with the tree. */
  predicate Repairable(ctx: Ctx, t: Tree) {
    IsRed(t) && NoRedRed(t) && Balanced(t) && CtxNoRedRed(ctx) && CtxBalanced(ctx, BlackHeight(t))
  }

  /** insertionCases: the whole tree after repairing at `t`. */
  function Repair(ctx: Ctx, t: Tree): Tree
    requires Repairable(ctx, t)
    decreases ctx
  {
    if ctx.Top? then Blacken(t)
    else if ctx.color.Black? then Plug(ctx, t)
    else
      assert CtxNoRedRed(ctx.up) && CtxBalanced(ctx.up, BlackHeight(t));
      var up, g, p, n := ctx.up.up, ctx.up.slot, ctx.slot, t.slot;
      match (ctx, ctx.up)
      case (InLeft(_, _, _, s), InLeft(_, _, _, u)) =>
        if IsRed(u) then Repair(up, Lifted(Node(Black, t, p, s), g, Blacken(u)))
        else Plug(up, Node(Black, t, p, Node(Red, s, g, u)))
      case (InRight(_, s, _, _), InLeft(_, _, _, u)) =>
        if IsRed(u) then Repair(up, Lifted(Node(Black, s, p, t), g, Blacken(u)))
        else Plug(up, Node(Black, Node(Red, s, p, t.left), n, Node(Red, t.right, g, u)))
      case (InLeft(_, _, _, s), InRight(_, u, _, _)) =>
        if IsRed(u) then Repair(up, Lifted(Blacken(u), g, Node(Black, t, p, s)))
        else Plug(up, Node(Black, Node(Red, u, g, t.left), n, Node(Red, t.right, p, s)))
      case (InRight(_, s, _, _), InRight(_, u, _, _)) =>
        if IsRed(u) then Repair(up, Lifted(Blacken(u), g, Node(Black, s, p, t)))
        else Plug(up, Node(Black, Node(Red, u, g, s), p, t))
  }

  /** The recoloured grandparent: red over two black children. */
  function Lifted(l: Tree, g: Slot, r: Tree): (t: Tree)
    requires NoRedRed(l) && NoRedRed(r) && Balanced(l) && Balanced(r)
    requires !IsRed(l) && !IsRed(r) && BlackHeight(l) == BlackHeight(r)
    ensures IsRed(t) && NoRedRed(t) && Balanced(t) && BlackHeight(t) == BlackHeight(l)
    ensures InOrder(t) == InOrder(l) + [g] + InOrder(r)
  {
    Node(Red, l, g, r)
  }

  /** The tree at the grandparent before the repair, for a hole under a red parent. */
  function Grandparent(ctx: Ctx, t: Tree): (r: Tree)
    requires !ctx.Top? && !ctx.up.Top?
    ensures Plug(ctx.up.up, r) == Plug(ctx, t)
  {
    var p := if ctx.InLeft? then Node(ctx.color, t, ctx.slot, ctx.right) else Node(ctx.color, ctx.left, ctx.slot, t);
    if ctx.up.InLeft? then Node(ctx.up.color, p, ctx.up.slot, ctx.up.right)
    else Node(ctx.up.color, ctx.up.left, ctx.up.slot, p)
  }

  function Uncle(ctx: Ctx): Tree
    requires !ctx.Top? && !ctx.up.Top?
  {
    if ctx.up.InLeft? then ctx.up.right else ctx.up.left
  }

  /** Repairing restores every red-black law and moves no slot in the in-order sequence. */
  lemma {:induction false} RepairCorrect(ctx: Ctx, t: Tree)
    requires Repairable(ctx, t)
    ensures RedBlack(Repair(ctx, t))
    ensures InOrder(Repair(ctx, t)) == InOrder(Plug(ctx, t))
    decreases ctx
  {
    if ctx.Top? {
    } else if ctx.color.Black? {
      PlugRedBlack(ctx, t);
    } else {
      assert CtxNoRedRed(ctx.up) && CtxBalanced(ctx.up, BlackHeight(t));
      var up, g, p, u := ctx.up.up, ctx.up.slot, ctx.slot, Uncle(ctx);
      if IsRed(u) {
        var q := if ctx.InLeft? then Node(Black, t, p, ctx.right) else Node(Black, ctx.left, p, t);
        var t' := if ctx.up.InLeft? then Lifted(q, g, Blacken(u)) else Lifted(Blacken(u), g, q);
        PlugInOrder(up, Grandparent(ctx, t));
        PlugInOrder(up, t');
        RepairCorrect(up, t');
      } else {
        RepairRotates(ctx, t);
      }
    }
  }

  /** A rotation, whatever it does to the colours, keeps the in-order sequence. */
  lemma RotationInOrder(c: Color, d: Color, c': Color, d': Color, a: Tree, x: Slot, b: Tree, y: Slot, e: Tree)
    ensures InOrder(Node(c, Node(d, a, x, b), y, e)) == InOrder(Node(c', a, x, Node(d', b, y, e)))
  {
    assert InOrder(Node(d, a, x, b)) == InOrder(a) + [x] + InOrder(b);
    assert InOrder(Node(d', b, y, e)) == InOrder(b) + [y] + InOrder(e);
  }

  lemma RepairRotates(ctx: Ctx, t: Tree)
    requires Repairable(ctx, t) && RedHole(ctx) && !ctx.up.Top? && !IsRed(Uncle(ctx))
    ensures RedBlack(Repair(ctx, t))
    ensures InOrder(Repair(ctx, t)) == InOrder(Plug(ctx, t))
  {
    assert CtxNoRedRed(ctx.up) && CtxBalanced(ctx.up, BlackHeight(t));
    var up, g, p, u, n := ctx.up.up, ctx.up.slot, ctx.slot, Uncle(ctx), t.slot;
    match (ctx, ctx.up)
    case (InLeft(_, _, _, s), InLeft(_, _, _, _)) =>
      RotationInOrder(Black, Red, Black, Red, t, p, s, g, u);
      Rotated(up, Grandparent(ctx, t), t, p, Node(Red, s, g, u));
    case (InRight(_, s, _, _), InRight(_, _, _, _)) =>
      RotationInOrder(Black, Red, Black, Red, u, g, s, p, t);
      Rotated(up, Grandparent(ctx, t), Node(Red, u, g, s), p, t);
    case (InRight(_, s, _, _), InLeft(_, _, _, _)) =>
      RotationInOrder(Red, Red, Red, Red, s, p, t.left, n, t.right);
      RotationInOrder(Black, Red, Black, Red, Node(Red, s, p, t.left), n, t.right, g, u);
      Rotated(up, Grandparent(ctx, t), Node(Red, s, p, t.left), n, Node(Red, t.right, g, u));
    case (InLeft(_, _, _, s), InRight(_, _, _, _)) =>
      RotationInOrder(Red, Red, Red, Red, t.left, n, t.right, p, s);
      RotationInOrder(Black, Red, Black, Red, u, g, t.left, n, Node(Red, t.right, p, s));
      Rotated(up, Grandparent(ctx, t), Node(Red, u, g, t.left), n, Node(Red, t.right, p, s));
  }

  lemma Rotated(up: Ctx, t: Tree, l: Tree, s: Slot, r: Tree)
    requires InOrder(t) == InOrder(Node(Black, l, s, r))
    requires BlackHeight(l) == BlackHeight(r)
    requires CtxNoRedRed(up) && CtxBalanced(up, BlackHeight(l) + 1)
    requires NoRedRed(l) && NoRedRed(r) && Balanced(l) && Balanced(r)
    ensures RedBlack(Plug(up, Node(Black, l, s, r)))
    ensures InOrder(Plug(up, Node(Black, l, s, r))) == InOrder(Plug(up, t))
  {
    var n := Node(Black, l, s, r);
    assert NoRedRed(n) && Balanced(n) && BlackHeight(n) == BlackHeight(l) + 1;
    SameOrderPlugged(up, t, n);
    PlugRedBlack(up, n);
  }

  lemma SameOrderPlugged(up: Ctx, t: Tree, n: Tree)
    requires InOrder(t) == InOrder(n)
    ensures InOrder(Plug(up, n)) == InOrder(Plug(up, t))
  {
    PlugInOrder(up, t);
    PlugInOrder(up, n);
  }

  // ---------------------------------------------------------------- where a new slot goes

  /** The virtual runtime of a slot, in a table of them. */
  function Key(vr: seq<int>, s: Slot): int {
    if s < |vr| then vr[s] else 0
  }

  predicate Sorted(vr: seq<int>, q: seq<Slot>) {
    forall i, j :: 0 <= i < j < |q| ==> Key(vr, q[i]) <= Key(vr, q[j])
  }

  /** A queue with `p` added behind every slot whose virtual runtime is not larger. */
  function Enqueue(vr: seq<int>, q: seq<Slot>, p: Slot): seq<Slot> {
    if q == [] || Key(vr, q[0]) > Key(vr, p) then [p] + q else [q[0]] + Enqueue(vr, q[1..], p)
  }

  lemma {:induction false} EnqueueRight(vr: seq<int>, a: seq<Slot>, b: seq<Slot>, p: Slot)
    requires forall i :: 0 <= i < |a| ==> Key(vr, a[i]) <= Key(vr, p)
    ensures Enqueue(vr, a + b, p) == a + Enqueue(vr, b, p)
  {
    if a == [] {
      assert a + b == b;
    } else {
      assert (a + b)[1..] == a[1..] + b;
      EnqueueRight(vr, a[1..], b, p);
    }
  }

  lemma {:induction false} EnqueueLeft(vr: seq<int>, a: seq<Slot>, b: seq<Slot>, p: Slot)
    requires b != [] && Key(vr, b[0]) > Key(vr, p)
    ensures Enqueue(vr, a + b, p) == Enqueue(vr, a, p) + b
  {
    if a == [] {
      assert a + b == b;
    } else {
      assert (a + b)[1..] == a[1..] + b;
      EnqueueLeft(vr, a[1..], b, p);
    }
  }

  /** insertproc: the new red leaf goes right of every node that is not larger. */
  function InsertLeaf(vr: seq<int>, t: Tree, p: Slot): Tree {
    match t
    case Leaf => Node(Red, Leaf, p, Leaf)
    case Node(c, l, s, r) =>
      if Key(vr, s) <= Key(vr, p) then Node(c, l, s, InsertLeaf(vr, r, p))
      else Node(c, InsertLeaf(vr, l, p), s, r)
  }

  lemma SortedParts(vr: seq<int>, a: seq<Slot>, s: Slot, b: seq<Slot>)
    requires Sorted(vr, a + [s] + b)
    ensures Sorted(vr, a) && Sorted(vr, b)
    ensures forall i :: 0 <= i < |a| ==> Key(vr, a[i]) <= Key(vr, s)
  {
    var q := a + [s] + b;
    assert q[|a|] == s;
    assert a == q[..|a|] && b == q[|a| + 1..];
  }

  /** Where Enqueue puts p, seen from a middle element. */
  lemma EnqueueAround(vr: seq<int>, a: seq<Slot>, s: Slot, b: seq<Slot>, p: Slot)
    requires Sorted(vr, a + [s] + b)
    ensures Enqueue(vr, a + [s] + b, p) == if Key(vr, s) <= Key(vr, p) then a + [s] + Enqueue(vr, b, p)
                                           else Enqueue(vr, a, p) + [s] + b
  {
    SortedParts(vr, a, s, b);
    if Key(vr, s) <= Key(vr, p) {
      EnqueueRight(vr, a + [s], b, p);
    } else {
      EnqueueLeft(vr, a, [s] + b, p);
      assert a + [s] + b == a + ([s] + b) && Enqueue(vr, a, p) + [s] + b == Enqueue(vr, a, p) + ([s] + b);
    }
  }

  lemma {:induction false} InsertLeafInOrder(vr: seq<int>, t: Tree, p: Slot)
    requires Sorted(vr, InOrder(t))
    ensures InOrder(InsertLeaf(vr, t, p)) == Enqueue(vr, InOrder(t), p)
  {
    if t.Node? {
      hide Enqueue, Sorted;
      var a, b, s := InOrder(t.left), InOrder(t.right), t.slot;
      SortedParts(vr, a, s, b);
      EnqueueAround(vr, a, s, b, p);
      if Key(vr, s) <= Key(vr, p) {
        InsertLeafInOrder(vr, t.right, p);
      } else {
        InsertLeafInOrder(vr, t.left, p);
      }
    }
  }

  /** The path insertproc takes from `t` (hanging from `ctx`) to the new leaf. */
  function InsertPath(vr: seq<int>, ctx: Ctx, t: Tree, p: Slot): Ctx
    decreases t
  {
    match t
    case Leaf => ctx
    case Node(c, l, s, r) =>
      if Key(vr, s) <= Key(vr, p) then InsertPath(vr, InRight(c, l, s, ctx), r, p)
      else InsertPath(vr, InLeft(c, ctx, s, r), l, p)
  }

  lemma {:induction false} InsertPathPlug(vr: seq<int>, ctx: Ctx, t: Tree, p: Slot)
    ensures Plug(InsertPath(vr, ctx, t, p), Leaf) == Plug(ctx, t)
    ensures Plug(InsertPath(vr, ctx, t, p), Node(Red, Leaf, p, Leaf)) == Plug(ctx, InsertLeaf(vr, t, p))
    decreases t
  {
    match t
    case Leaf =>
    case Node(c, l, s, r) =>
      if Key(vr, s) <= Key(vr, p) { InsertPathPlug(vr, InRight(c, l, s, ctx), r, p); }
      else { InsertPathPlug(vr, InLeft(c, ctx, s, r), l, p); }
  }

  /** A red leaf at the end of its path is all that is wrong with the tree. */
  lemma InsertRepairable(vr: seq<int>, t: Tree, p: Slot)
    requires RedBlack(t)
    ensures Repairable(InsertPath(vr, Top, t, p), Node(Red, Leaf, p, Leaf))
  {
    InsertPathPlug(vr, Top, t, p);
    PlugRedBlack(InsertPath(vr, Top, t, p), Leaf);
  }

  /** The tree insertProcess builds. */
  function Inserted(vr: seq<int>, t: Tree, p: Slot): Tree
    requires RedBlack(t)
  {
    InsertRepairable(vr, t, p);
    Repair(InsertPath(vr, Top, t, p), Node(Red, Leaf, p, Leaf))
  }

  /** Inserting keeps the tree red-black and, in order, is exactly a stable priority enqueue. */
  lemma InsertedCorrect(vr: seq<int>, t: Tree, p: Slot)
    requires RedBlack(t) && Sorted(vr, InOrder(t))
    ensures RedBlack(Inserted(vr, t, p))
    ensures InOrder(Inserted(vr, t, p)) == Enqueue(vr, InOrder(t), p)
  {
    InsertPathPlug(vr, Top, t, p);
    InsertRepairable(vr, t, p);
    RepairCorrect(InsertPath(vr, Top, t, p), Node(Red, Leaf, p, Leaf));
    InsertLeafInOrder(vr, t, p);
  }

  /** What Enqueue means: one cut, no larger key before it and only larger keys behind it. */
  lemma {:induction false} EnqueueCut(vr: seq<int>, q: seq<Slot>, p: Slot) returns (k: nat)
    requires Sorted(vr, q)
    ensures k <= |q| && Enqueue(vr, q, p) == q[..k] + [p] + q[k..]
    ensures forall i :: 0 <= i < k ==> Key(vr, q[i]) <= Key(vr, p)
    ensures forall i :: k <= i < |q| ==> Key(vr, q[i]) > Key(vr, p)
    ensures Sorted(vr, Enqueue(vr, q, p))
  {
    if q == [] || Key(vr, q[0]) > Key(vr, p) {
      k := 0;
      assert q[..k] + [p] + q[k..] == [p] + q;
    } else {
      var r := q[1..];
      var j := EnqueueCut(vr, r, p);
      k := j + 1;
      assert q[k..] == r[j..] && [q[0]] + (r[..j] + [p] + r[j..]) == q[..k] + [p] + q[k..];
    }
    SortedCut(vr, q, p, k);
  }

  lemma SortedCut(vr: seq<int>, q: seq<Slot>, p: Slot, k: nat)
    requires Sorted(vr, q) && k <= |q|
    requires forall i :: 0 <= i < k ==> Key(vr, q[i]) <= Key(vr, p)
    requires forall i :: k <= i < |q| ==> Key(vr, q[i]) > Key(vr, p)
    ensures Sorted(vr, q[..k] + [p] + q[k..])
  {
  }

  // ---------------------------------------------------------------- removal of the leftmost node

  /** The hole is reached from the root by left links only. */
  predicate LeftSpine(ctx: Ctx) {
    ctx.Top? || (ctx.InLeft? && LeftSpine(ctx.up))
  }

  function Depth(ctx: Ctx): nat {
    if ctx.Top? then 0 else Depth(ctx.up) + 1
  }

  /** The path from `t` (hanging from `ctx`) down to its leftmost node, and that node. */
  function LeftPath(ctx: Ctx, t: Tree): Ctx
    requires t.Node?
    decreases t
  {
    if t.left.Leaf? then ctx else LeftPath(InLeft(t.color, ctx, t.slot, t.right), t.left)
  }

  function LeftNode(t: Tree): Tree
    requires t.Node?
  {
    if t.left.Leaf? then t else LeftNode(t.left)
  }

  lemma {:induction false} LeftmostIsFirst(ctx: Ctx, t: Tree)
    requires t.Node?
    ensures LeftNode(t).Node? && LeftNode(t).left.Leaf?
    ensures Plug(LeftPath(ctx, t), LeftNode(t)) == Plug(ctx, t)
    ensures LeftSpine(ctx) ==> LeftSpine(LeftPath(ctx, t))
    ensures InOrder(t) != [] && InOrder(t)[0] == LeftNode(t).slot
    decreases t
  {
    if t.left.Node? { LeftmostIsFirst(InLeft(t.color, ctx, t.slot, t.right), t.left); }
  }

  /** Nothing lies before a hole on the left spine. */
  lemma {:induction false} LeftSpineBefore(ctx: Ctx)
    requires LeftSpine(ctx)
    ensures Before(ctx) == []
  {
    if !ctx.Top? { LeftSpineBefore(ctx.up); }
  }

  /** One black node is missing on every path through the hole; a red root of `t` is about to turn black. */
  predicate Deficient(ctx: Ctx, t: Tree) {
    LeftSpine(ctx) && NoRedRed(Blacken(t)) && Balanced(t) && CtxNoRedRed(ctx) && CtxBalanced(ctx, BlackHeight(t) + 1)
  }

  /** A red sibling rotated above the parent: the hole keeps its subtree and gets a black sibling. */
  function BlackSibling(ctx: Ctx): Ctx
    requires ctx.InLeft? && ctx.right.Node?
  {
    if !IsRed(ctx.right) then ctx
    else InLeft(Red, InLeft(Black, ctx.up, ctx.right.slot, ctx.right.right), ctx.slot, ctx.right.left)
  }

  /** A black sibling with a black right child and a red left child, rotated right. */
  function OuterNephew(s: Tree): Tree
    requires s.Node? && (IsRed(s.left) || IsRed(s.right))
  {
    if IsRed(s.right) then s
    else Node(Black, s.left.left, s.left.slot, Node(Red, s.left.right, s.slot, s.right))
  }

  lemma BlackSiblingDeficient(ctx: Ctx, t: Tree)
    requires Deficient(ctx, t) && !ctx.Top? && !IsRed(t)
    ensures ctx.InLeft? && ctx.right.Node?
    ensures var c := BlackSibling(ctx);
            Deficient(c, t) && c.InLeft? && c.slot == ctx.slot && c.right.Node? && !IsRed(c.right) &&
            InOrder(Plug(c, t)) == InOrder(Plug(ctx, t)) &&
            (c == ctx || c.color == Red)
  {
    var s := ctx.right;
    assert BlackHeight(s) == BlackHeight(t) + 1;
    if IsRed(s) {
      assert NoRedRed(s) && Balanced(s) && s.left.Node?;
      var up := InLeft(Black, ctx.up, s.slot, s.right);
      assert CtxNoRedRed(up) && CtxBalanced(up, BlackHeight(t) + 1);
      RotationInOrder(Black, Red, Black, Red, t, ctx.slot, s.left, s.slot, s.right);
      PlugInOrder(ctx.up, Node(Black, t, ctx.slot, s));
      PlugInOrder(ctx.up, Node(Black, Node(Red, t, ctx.slot, s.left), s.slot, s.right));
    }
  }

  /** With both nephews black the sibling turns red, and the deficit moves up to the parent. */
  lemma PushedUpDeficient(c: Ctx, t: Tree)
    requires Deficient(c, t) && !IsRed(t) && c.InLeft? && c.right.Node? && !IsRed(c.right) && !IsRed(c.right.left) &&
             !IsRed(c.right.right)
    ensures Deficient(c.up, Node(c.color, t, c.slot, c.right.(color := Red)))
  {
    var s := c.right;
    var red := Node(Red, s.left, s.slot, s.right);
    var t' := Node(c.color, t, c.slot, red);
    assert BlackHeight(s) == BlackHeight(t) + 1 && Balanced(s) && s.color == Black;
    assert Balanced(red) && BlackHeight(red) == BlackHeight(t);
    assert CtxBalanced(c.up, BlackHeight(t) + 1 + Weigh(c.color));
    assert Balanced(t') && BlackHeight(t') == BlackHeight(t) + Weigh(c.color);
  }

  /** The fix-up loop of retrievingCases: the whole tree after it. */
  function Rebalance(ctx: Ctx, t: Tree): Tree
    requires Deficient(ctx, t)
    decreases if IsRed(t) then 0 else Depth(ctx) + 1
  {
    if ctx.Top? || IsRed(t) then Plug(ctx, Blacken(t))
    else
      BlackSiblingDeficient(ctx, t);
      var c := BlackSibling(ctx);
      var s := c.right;
      if !IsRed(s.left) && !IsRed(s.right) then
        PushedUpDeficient(c, t);
        Rebalance(c.up, Node(c.color, t, c.slot, s.(color := Red)))
      else
        var s' := OuterNephew(s);
        Plug(c.up, Node(c.color, Node(Black, t, c.slot, s'.left), s'.slot, Blacken(s'.right)))
  }

  /** The missing black node is made up for and no slot moves in the in-order sequence. */
  lemma {:induction false} RebalanceCorrect(ctx: Ctx, t: Tree)
    requires Deficient(ctx, t)
    ensures RedBlack(Rebalance(ctx, t))
    ensures InOrder(Rebalance(ctx, t)) == InOrder(Plug(ctx, t))
    decreases if IsRed(t) then 0 else Depth(ctx) + 1
  {
    if ctx.Top? || IsRed(t) {
      PlugRedBlack(ctx, Blacken(t));
      PlugInOrder(ctx, t);
      PlugInOrder(ctx, Blacken(t));
    } else {
      BlackSiblingDeficient(ctx, t);
      var c := BlackSibling(ctx);
      var s := c.right;
      assert BlackHeight(s) == BlackHeight(t) + 1 && CtxBalanced(c.up, BlackHeight(t) + 1 + Weigh(c.color));
      if !IsRed(s.left) && !IsRed(s.right) {
        var t' := Node(c.color, t, c.slot, s.(color := Red));
        assert Balanced(s) && BlackHeight(t') == BlackHeight(t) + Weigh(c.color);
        RebalanceCorrect(c.up, t');
        PlugInOrder(c.up, t');
        PlugInOrder(c.up, Node(c.color, t, c.slot, s));
      } else {
        BorrowCorrect(c, t);
      }
    }
  }

  /** The closing rotation of the loop, when the black sibling has a red child. */
  lemma BorrowCorrect(c: Ctx, t: Tree)
    requires Deficient(c, t) && c.InLeft? && !IsRed(t)
    requires c.right.Node? && c.right.color.Black? && (IsRed(c.right.left) || IsRed(c.right.right))
    ensures var s' := OuterNephew(c.right);
            var t' := Node(c.color, Node(Black, t, c.slot, s'.left), s'.slot, Blacken(s'.right));
            RedBlack(Plug(c.up, t')) && InOrder(Plug(c.up, t')) == InOrder(Plug(c, t))
  {
    var s := c.right;
    var s' := OuterNephew(s);
    OuterNephewShape(s);
    assert BlackHeight(s) == BlackHeight(t) + 1 && CtxBalanced(c.up, BlackHeight(t) + 1 + Weigh(c.color));
    var l, r := Node(Black, t, c.slot, s'.left), Blacken(s'.right);
    var t' := Node(c.color, l, s'.slot, r);
    assert NoRedRed(l) && Balanced(l) && NoRedRed(r) && Balanced(r) && BlackHeight(l) == BlackHeight(r);
    RotationInOrder(c.color, Black, c.color, Black, t, c.slot, s'.left, s'.slot, r);
    assert InOrder(t') == InOrder(Node(c.color, t, c.slot, s));
    PlugInOrder(c.up, t');
    PlugInOrder(c.up, Node(c.color, t, c.slot, s));
    PlugRedBlack(c.up, t');
  }

  lemma OuterNephewShape(s: Tree)
    requires s.Node? && s.color.Black? && (IsRed(s.left) || IsRed(s.right)) && NoRedRed(s) && Balanced(s)
    ensures var s' := OuterNephew(s);
            InOrder(s') == InOrder(s) && s'.color.Black? && NoRedRed(s'.left) && Balanced(s') && IsRed(s'.right) &&
            NoRedRed(s'.right.left) && NoRedRed(s'.right.right) && BlackHeight(s') == BlackHeight(s) &&
            InOrder(Node(Black, s'.left, s'.slot, Blacken(s'.right))) == InOrder(s)
  {
    if !IsRed(s.right) {
      RotationInOrder(Black, Red, Black, Red, s.left.left, s.left.slot, s.left.right, s.slot, s.right);
    }
  }

  /** retrievingCases: the leftmost node Node(c, Leaf, m, r) hanging from `ctx` is taken out. */
  function Extract(ctx: Ctx, c: Color, r: Tree): Tree
    requires LeftSpine(ctx) && RedBlack(Plug(ctx, Node(c, Leaf, 0, r)))
  {
    PlugRedBlack(ctx, Node(c, Leaf, 0, r));
    if ctx.Top? then Blacken(r)
    else if r.Node? && r.color != c then Plug(ctx, Blacken(r))
    else if c.Red? then Plug(ctx, r)
    else Rebalance(ctx, r)
  }

  /** What is left is red-black, and its in-order sequence has lost exactly its first slot. */
  lemma ExtractCorrect(ctx: Ctx, c: Color, m: Slot, r: Tree)
    requires LeftSpine(ctx) && RedBlack(Plug(ctx, Node(c, Leaf, m, r)))
    ensures RedBlack(Plug(ctx, Node(c, Leaf, 0, r)))
    ensures RedBlack(Extract(ctx, c, r))
    ensures InOrder(Plug(ctx, Node(c, Leaf, m, r))) == [m] + InOrder(Extract(ctx, c, r))
    ensures r.Leaf? || (c.Black? && IsRed(r))
    ensures !ctx.Top? && c.Black? ==> Deficient(ctx, r)
  {
    PlugRedBlack(ctx, Node(c, Leaf, m, r));
    PlugRedBlack(ctx, Node(c, Leaf, 0, r));
    ExtractInOrder(ctx, c, m, r);
    if ctx.Top? {
    } else if r.Node? && r.color != c {
      PlugRedBlack(ctx, Blacken(r));
    } else if c.Red? {
      PlugRedBlack(ctx, r);
    } else {
      RebalanceCorrect(ctx, r);
    }
  }

  lemma ExtractInOrder(ctx: Ctx, c: Color, m: Slot, r: Tree)
    requires LeftSpine(ctx)
    ensures InOrder(Plug(ctx, Node(c, Leaf, m, r))) == [m] + InOrder(Plug(ctx, r))
    ensures InOrder(Plug(ctx, Blacken(r))) == InOrder(Plug(ctx, r))
  {
    PlugInOrder(ctx, Node(c, Leaf, m, r));
    PlugInOrder(ctx, r);
    PlugInOrder(ctx, Blacken(r));
    LeftSpineBefore(ctx);
  }
}
