/**
 The CFS run queue of kernel/proc.c: a red-black tree threaded through the slots of the
 process table by left/right/parentP links, with a cached minimum, a count and a running
 total of weights.

 The process table is an array of C structs.  `Tree` values appear only as ghosts; `At`
 says that the links in the table spell out a tree with the focus on one of its subtrees.
 */
module ProcTable {
  import opened RbTree

  const NPROC: nat := 64

  /** A `struct proc *`: a slot of the table, or NULL. */
  type Ptr = p: int | -1 <= p witness -1
  const NULL: Ptr := -1

  datatype ProcState = UNUSED | USED | SLEEPING | RUNNABLE | RUNNING | ZOMBIE

  datatype Proc = Proc(
    state: ProcState,
    virtualRuntime: int, currentRuntime: int, maximumExecutiontime: int,
    niceValue: int, weightValue: int,
    coloring: Color, left: Ptr, right: Ptr, parentP: Ptr)

  function VirtualRuntimes(h: seq<Proc>): (vr: seq<int>)
    ensures |vr| == |h| && forall s :: 0 <= s < |h| ==> vr[s] == h[s].virtualRuntime
  {
    seq(|h|, i requires 0 <= i < |h| => h[i].virtualRuntime)
  }

  // ---------------------------------------------------------------- links and trees

  function Root(t: Tree): Ptr { if t.Leaf? then NULL else t.slot }

  function ParentOf(ctx: Ctx): Ptr { if ctx.Top? then NULL else ctx.slot }

  /** The root of the whole tree when the hole of `ctx` holds a subtree rooted at `r`. */
  function CtxRoot(ctx: Ctx, r: Ptr): Ptr {
    if ctx.Top? then r else CtxRoot(ctx.up, ctx.slot)
  }

  predicate RepNode(n: Proc, c: Color, l: Ptr, r: Ptr, parent: Ptr) {
    (n.coloring, n.left, n.right, n.parentP) == (c, l, r, parent)
  }

  predicate Rep(h: seq<Proc>, t: Tree, parent: Ptr) {
    match t
    case Leaf => true
    case Node(c, l, s, r) =>
      s < |h| && RepNode(h[s], c, Root(l), Root(r), parent) && Rep(h, l, s) && Rep(h, r, s)
  }

  predicate RepCtx(h: seq<Proc>, ctx: Ctx, hole: Ptr) {
    match ctx
    case Top => true
    case InLeft(c, up, s, r) =>
      s < |h| && RepNode(h[s], c, hole, Root(r), ParentOf(up)) && Rep(h, r, s) && RepCtx(h, up, s)
    case InRight(c, l, s, up) =>
      s < |h| && RepNode(h[s], c, Root(l), hole, ParentOf(up)) && Rep(h, l, s) && RepCtx(h, up, s)
  }

  /** The links of `h`, from `root`, are the tree Plug(ctx, t); no slot occurs twice. */
  predicate At(h: seq<Proc>, root: Ptr, ctx: Ctx, t: Tree) {
    Rep(h, t, ParentOf(ctx)) && RepCtx(h, ctx, Root(t)) && root == CtxRoot(ctx, Root(t)) &&
    Unique(t) && CtxUnique(ctx) && CtxSlots(ctx) !! Slots(t)
  }

  lemma {:induction false} AtPlug(h: seq<Proc>, root: Ptr, ctx: Ctx, t: Tree)
    ensures At(h, root, ctx, t) <==> At(h, root, Top, Plug(ctx, t))
    decreases ctx
  {
    match ctx
    case Top =>
    case InLeft(c, up, s, r) => AtPlug(h, root, up, Node(c, t, s, r));
    case InRight(c, l, s, up) => AtPlug(h, root, up, Node(c, l, s, t));
  }

  // ---------------------------------------------------------------- frames

  predicate SameLinks(a: Proc, b: Proc) {
    RepNode(a, b.coloring, b.left, b.right, b.parentP)
  }

  /** Only links and colours changed, and only in `slots`. */
  predicate OnlyLinks(h: seq<Proc>, h': seq<Proc>, slots: set<Slot>) {
    |h| == |h'| &&
    (forall s :: 0 <= s < |h| && s !in slots ==> h'[s] == h[s]) &&
    (forall s :: 0 <= s < |h| ==>
      h'[s] == h[s].(coloring := h'[s].coloring, left := h'[s].left, right := h'[s].right, parentP := h'[s].parentP))
  }

  /** A subtree survives changes elsewhere, and may be hung from a new parent. */
  lemma {:induction false} RepFrame(h: seq<Proc>, h': seq<Proc>, t: Tree, parent: Ptr, parent': Ptr)
    requires Rep(h, t, parent) && |h| == |h'| && Unique(t)
    requires forall s :: s in Slots(t) && s < |h| && s != Root(t) ==> SameLinks(h[s], h'[s])
    requires t.Node? ==> SameLinks(h[t.slot].(parentP := parent'), h'[t.slot])
    ensures Rep(h', t, parent')
  {
    if t.Node? {
      RepFrame(h, h', t.left, t.slot, t.slot);
      RepFrame(h, h', t.right, t.slot, t.slot);
    }
  }

  /** The path to the root survives changes elsewhere, with a new subtree in the hole. */
  lemma {:induction false} RepCtxFrame(h: seq<Proc>, h': seq<Proc>, ctx: Ctx, hole: Ptr, hole': Ptr)
    requires RepCtx(h, ctx, hole) && |h| == |h'| && CtxUnique(ctx)
    requires forall s :: s in CtxSlots(ctx) && s < |h| && s != ParentOf(ctx) ==> SameLinks(h[s], h'[s])
    requires ctx.InLeft? ==> SameLinks(h[ctx.slot].(left := hole'), h'[ctx.slot])
    requires ctx.InRight? ==> SameLinks(h[ctx.slot].(right := hole'), h'[ctx.slot])
    ensures RepCtx(h', ctx, hole')
  {
    if !ctx.Top? {
      var t := if ctx.InLeft? then ctx.right else ctx.left;
      RepFrame(h, h', t, ctx.slot, ctx.slot);
      RepCtxFrame(h, h', ctx.up, ctx.slot, ctx.slot);
    }
  }

  lemma {:induction false} RepInTable(h: seq<Proc>, t: Tree, parent: Ptr)
    requires Rep(h, t, parent)
    ensures forall s :: s in Slots(t) ==> s < |h|
  {
    if t.Node? {
      RepInTable(h, t.left, t.slot);
      RepInTable(h, t.right, t.slot);
    }
  }

  // ---------------------------------------------------------------- rotations

  function LeftRotation(t: Tree): Tree
    requires t.Node? && t.right.Node?
  {
    Node(t.right.color, Node(t.color, t.left, t.slot, t.right.left), t.right.slot, t.right.right)
  }

  function RightRotation(t: Tree): Tree
    requires t.Node? && t.left.Node?
  {
    Node(t.left.color, t.left.left, t.left.slot, Node(t.color, t.left.right, t.slot, t.right))
  }

  /** What the two rotations do to the table: `x` goes under `y`, and `b` moves from `y` to `x`. */
  function RotatedSlot(h: seq<Proc>, s: Slot, x: Slot, y: Slot, b: Ptr, leftward: bool): Proc
    requires s < |h| && x < |h|
  {
    if s == x then
      if leftward then h[s].(right := b, parentP := y) else h[s].(left := b, parentP := y)
    else if s == y then
      if leftward then h[s].(left := x, parentP := h[x].parentP) else h[s].(right := x, parentP := h[x].parentP)
    else if s == b then h[s].(parentP := x)
    else if s == h[x].parentP then
      if h[s].left == x then h[s].(left := y) else h[s].(right := y)
    else h[s]
  }

  lemma RotateLeftTree(h: seq<Proc>, h': seq<Proc>, t: Tree, parent: Ptr)
    requires Rep(h, t, parent) && Unique(t) && t.Node? && t.right.Node? && |h| == |h'| && parent !in Slots(t)
    requires forall s :: 0 <= s < |h| ==> h'[s] == RotatedSlot(h, s, t.slot, t.right.slot, Root(t.right.left), true)
    ensures Rep(h', LeftRotation(t), parent)
  {
    var x, y := t.slot, t.right.slot;
    var a, b, c := t.left, t.right.left, t.right.right;
    assert Rep(h, t.right, x) && Unique(t.right);
    assert Rep(h', a, x) by { RepFrame(h, h', a, x, x); }
    assert Rep(h', b, x) by { RepFrame(h, h', b, y, x); }
    assert Rep(h', c, y) by { RepFrame(h, h', c, y, y); }
    assert Rep(h', Node(t.color, a, x, b), y);
  }

  lemma RotateRightTree(h: seq<Proc>, h': seq<Proc>, t: Tree, parent: Ptr)
    requires Rep(h, t, parent) && Unique(t) && t.Node? && t.left.Node? && |h| == |h'| && parent !in Slots(t)
    requires forall s :: 0 <= s < |h| ==> h'[s] == RotatedSlot(h, s, t.slot, t.left.slot, Root(t.left.right), false)
    ensures Rep(h', RightRotation(t), parent)
  {
    var x, y := t.slot, t.left.slot;
    var a, b, c := t.left.left, t.left.right, t.right;
    assert Rep(h, t.left, x) && Unique(t.left);
    assert Rep(h', a, y) by { RepFrame(h, h', a, y, y); }
    assert Rep(h', b, x) by { RepFrame(h, h', b, y, x); }
    assert Rep(h', c, x) by { RepFrame(h, h', c, x, x); }
    assert Rep(h', Node(t.color, b, x, c), y);
  }

  lemma RotationUnique(t: Tree)
    requires Unique(t) && t.Node?
    ensures t.right.Node? ==> Unique(LeftRotation(t)) && Slots(LeftRotation(t)) == Slots(t)
    ensures t.left.Node? ==> Unique(RightRotation(t)) && Slots(RightRotation(t)) == Slots(t)
  {
    if t.right.Node? { assert Unique(t.right) && Unique(LeftRotation(t).left); }
    if t.left.Node? { assert Unique(t.left) && Unique(RightRotation(t).right); }
  }

  lemma RotateLeftAt(h: seq<Proc>, h': seq<Proc>, root: Ptr, ctx: Ctx, t: Tree)
    requires At(h, root, ctx, t) && t.Node? && t.right.Node? && |h| == |h'|
    requires forall s :: 0 <= s < |h| ==> h'[s] == RotatedSlot(h, s, t.slot, t.right.slot, Root(t.right.left), true)
    ensures At(h', if ctx.Top? then t.right.slot else root, ctx, LeftRotation(t))
    ensures OnlyLinks(h, h', CtxSlots(ctx) + Slots(t))
  {
    RotateLeftTree(h, h', t, ParentOf(ctx));
    RotationUnique(t);
    assert {t.right.slot, t.slot} + Slots(t.right.left) <= Slots(t);
    RepCtxFrame(h, h', ctx, t.slot, t.right.slot);
  }

  lemma RotateRightAt(h: seq<Proc>, h': seq<Proc>, root: Ptr, ctx: Ctx, t: Tree)
    requires At(h, root, ctx, t) && t.Node? && t.left.Node? && |h| == |h'|
    requires forall s :: 0 <= s < |h| ==> h'[s] == RotatedSlot(h, s, t.slot, t.left.slot, Root(t.left.right), false)
    ensures At(h', if ctx.Top? then t.left.slot else root, ctx, RightRotation(t))
    ensures OnlyLinks(h, h', CtxSlots(ctx) + Slots(t))
  {
    RotateRightTree(h, h', t, ParentOf(ctx));
    RotationUnique(t);
    assert {t.left.slot, t.slot} + Slots(t.left.right) <= Slots(t);
    RepCtxFrame(h, h', ctx, t.slot, t.left.slot);
  }

  predicate SlotOrNull(h: seq<Proc>, p: Ptr) { p == NULL || p < |h| }

  /** The four slots a rotation touches exist and differ, and the parent, if any, has `x` as a child. */
  predicate CanRotate(h: seq<Proc>, x: Slot, y: Ptr, b: Ptr) {
    x < |h| && 0 <= y < |h| && SlotOrNull(h, b) && SlotOrNull(h, h[x].parentP) &&
    x != y && x != b && y != b && x != h[x].parentP && y != h[x].parentP &&
    (b != NULL ==> b != h[x].parentP) &&
    (h[x].parentP != NULL ==> (h[h[x].parentP].left == x) != (h[h[x].parentP].right == x))
  }

  predicate CanRotateLeft(h: seq<Proc>, x: Slot) {
    x < |h| && 0 <= h[x].right < |h| && CanRotate(h, x, h[x].right, h[h[x].right].left)
  }

  predicate CanRotateRight(h: seq<Proc>, x: Slot) {
    x < |h| && 0 <= h[x].left < |h| && CanRotate(h, x, h[x].left, h[h[x].left].right)
  }

  lemma ParentSide(h: seq<Proc>, root: Ptr, ctx: Ctx, t: Tree)
    requires At(h, root, ctx, t) && t.Node?
    ensures t.slot < |h| && SlotOrNull(h, h[t.slot].parentP) && h[t.slot].parentP == ParentOf(ctx)
    ensures h[t.slot].parentP !in Slots(t)
    ensures h[t.slot].parentP != NULL ==>
              var p := h[h[t.slot].parentP];
              (p.left == t.slot) != (p.right == t.slot) && (p.left == t.slot <==> ctx.InLeft?)
  {
  }

  lemma RotationReady(h: seq<Proc>, root: Ptr, ctx: Ctx, t: Tree)
    requires At(h, root, ctx, t) && t.Node?
    ensures t.right.Node? ==> CanRotateLeft(h, t.slot)
    ensures t.left.Node? ==> CanRotateRight(h, t.slot)
  {
    ParentSide(h, root, ctx, t);
    if t.right.Node? {
      assert Rep(h, t.right, t.slot) && Unique(t.right) && Rep(h, t.right.left, t.right.slot);
    }
    if t.left.Node? {
      assert Rep(h, t.left, t.slot) && Unique(t.left) && Rep(h, t.left.right, t.left.slot);
    }
  }

  // ---------------------------------------------------------------- taking out the leftmost node

  lemma {:induction false} CtxRootInside(ctx: Ctx, r: Ptr)
    requires !ctx.Top?
    ensures CtxRoot(ctx, r) != NULL && CtxRoot(ctx, r) in CtxSlots(ctx)
  {
    if !ctx.up.Top? { CtxRootInside(ctx.up, ctx.slot); }
  }

  /** The focus is the root exactly when nothing is above it. */
  lemma FocusIsRoot(h: seq<Proc>, root: Ptr, ctx: Ctx, t: Tree)
    requires At(h, root, ctx, t)
    ensures Root(t) == root <==> ctx.Top?
  {
    if !ctx.Top? { CtxRootInside(ctx, Root(t)); }
  }

  /** The parent's left link, and the child's parent link, skip the leftmost node. */
  lemma UnlinkAt(h: seq<Proc>, h': seq<Proc>, root: Ptr, ctx: Ctx, c: Color, m: Slot, r: Tree)
    requires At(h, root, ctx, Node(c, Leaf, m, r)) && ctx.InLeft? && |h'| == |h|
    requires forall s :: 0 <= s < |h| ==>
               h'[s] == if s == ctx.slot then h[s].(left := Root(r))
                        else if s == Root(r) then h[s].(parentP := ctx.slot) else h[s]
    ensures At(h', root, ctx, r)
    ensures OnlyLinks(h, h', CtxSlots(ctx) + {m} + Slots(r))
  {
    RepFrame(h, h', r, m, ctx.slot);
    RepCtxFrame(h, h', ctx, m, Root(r));
  }

  /** Taking out the root: its only child, blackened, becomes the root. */
  lemma UnlinkRootAt(h: seq<Proc>, h': seq<Proc>, root: Ptr, c: Color, m: Slot, r: Tree)
    requires At(h, root, Top, Node(c, Leaf, m, r)) && |h'| == |h|
    requires forall s :: 0 <= s < |h| ==>
               h'[s] == if s == Root(r) then h[s].(parentP := NULL, coloring := Black) else h[s]
    ensures At(h', Root(r), Top, Blacken(r))
    ensures OnlyLinks(h, h', {m} + Slots(r))
  {
    if r.Node? {
      assert Rep(h, r, m) && Unique(r);
      RepFrame(h, h', r.left, r.slot, r.slot);
      RepFrame(h, h', r.right, r.slot, r.slot);
    }
  }

  /** Parent, sibling and nephews of a hole on the left spine, as the links have them. */
  lemma SiblingLinks(h: seq<Proc>, root: Ptr, ctx: Ctx, t: Tree)
    requires At(h, root, ctx, t) && ctx.InLeft?
    ensures ctx.slot < |h| && h[ctx.slot].left == Root(t) && h[ctx.slot].right == Root(ctx.right)
    ensures h[ctx.slot].coloring == ctx.color && h[ctx.slot].parentP == ParentOf(ctx.up)
    ensures ctx.right.Node? ==> var s := ctx.right;
              s.slot < |h| && s.slot != ctx.slot && h[s.slot].coloring == s.color &&
              h[s.slot].left == Root(s.left) && h[s.slot].right == Root(s.right) &&
              (s.left.Node? ==> s.left.slot < |h| && h[s.left.slot].coloring == s.left.color) &&
              (s.right.Node? ==> s.right.slot < |h| && h[s.right.slot].coloring == s.right.color)
  {
    if ctx.right.Node? {
      assert Rep(h, ctx.right.left, ctx.right.slot) && Rep(h, ctx.right.right, ctx.right.slot);
    }
  }

  lemma ExtractSlots(ctx: Ctx, c: Color, m: Slot, r: Tree)
    requires LeftSpine(ctx) && RedBlack(Plug(ctx, Node(c, Leaf, m, r))) && RedBlack(Plug(ctx, Node(c, Leaf, 0, r)))
    requires Unique(Node(c, Leaf, m, r)) && CtxUnique(ctx) && CtxSlots(ctx) !! Slots(Node(c, Leaf, m, r))
    ensures Slots(Extract(ctx, c, r)) == CtxSlots(ctx) + Slots(r) && m !in Slots(Extract(ctx, c, r))
  {
    var q, q' := InOrder(Plug(ctx, Node(c, Leaf, m, r))), InOrder(Extract(ctx, c, r));
    assert q == [m] + q' by { ExtractCorrect(ctx, c, m, r); }
    assert NoDup(q) && forall s :: s in q <==> s in CtxSlots(ctx) + {m} + Slots(r) by {
      PlugUnique(ctx, Node(c, Leaf, m, r));
      SlotsInOrder(Plug(ctx, Node(c, Leaf, m, r)));
    }
    NoDupConcat([m], q');
    SlotsInOrder(Extract(ctx, c, r));
    assert forall s :: s in q <==> s == m || s in q';
  }

  lemma NephewSlots(ctx: Ctx, t: Tree)
    requires ctx.InLeft? && ctx.right.Node? && IsRed(ctx.right.left) && !IsRed(ctx.right.right)
    ensures var s := ctx.right;
            CtxSlots(InRight(ctx.color, t, ctx.slot, ctx.up)) + Slots(Node(Red, Blacken(s.left), s.slot, s.right)) ==
            CtxSlots(ctx) + Slots(t)
    ensures CtxSlots(ctx.(right := OuterNephew(ctx.right))) == CtxSlots(ctx)
  {
    var s := ctx.right;
    assert Slots(Blacken(s.left)) == Slots(s.left);
    assert Slots(OuterNephew(s)) == Slots(s) by {
      assert Slots(Node(Red, s.left.right, s.slot, s.right)) == Slots(s.left.right) + {s.slot} + Slots(s.right);
    }
  }

  // The equations of Rebalance, one for each way through the loop body.

  lemma RebalanceLifts(ctx: Ctx, t: Tree)
    requires Deficient(ctx, t) && !ctx.Top? && !IsRed(t)
    ensures ctx.InLeft? && ctx.right.Node? && Deficient(BlackSibling(ctx), t)
    ensures Rebalance(BlackSibling(ctx), t) == Rebalance(ctx, t)
    ensures IsRed(ctx.right) ==> ctx.right.left.Node? && Depth(BlackSibling(ctx)) == Depth(ctx) + 1
  {
    BlackSiblingDeficient(ctx, t);
    assert BlackHeight(ctx.right) == BlackHeight(t) + 1;
    if IsRed(ctx.right) { assert Depth(BlackSibling(ctx).up) == Depth(ctx.up) + 1; }
  }

  lemma RebalancePushes(c: Ctx, t: Tree)
    requires Deficient(c, t) && c.InLeft? && !IsRed(t) && c.right.Node? && c.right.color.Black?
    requires !IsRed(c.right.left) && !IsRed(c.right.right)
    ensures var t' := Node(c.color, t, c.slot, c.right.(color := Red));
            Deficient(c.up, t') && Rebalance(c.up, t') == Rebalance(c, t)
  {
    BlackSiblingDeficient(c, t);
    assert CtxBalanced(c.up, BlackHeight(t) + 1 + Weigh(c.color));
  }

  lemma RebalanceBorrows(c: Ctx, t: Tree)
    requires Deficient(c, t) && c.InLeft? && !IsRed(t) && c.right.Node? && c.right.color.Black?
    requires IsRed(c.right.left) || IsRed(c.right.right)
    ensures var s := OuterNephew(c.right);
            Rebalance(c, t) == Plug(c.up, Node(c.color, Node(Black, t, c.slot, s.left), s.slot, Blacken(s.right)))
  {
    BlackSiblingDeficient(c, t);
  }

  lemma RebalanceDone(c: Ctx, t: Tree)
    requires Deficient(c, t) && Unique(t) && CtxUnique(c) && CtxSlots(c) !! Slots(t)
    ensures var t' := Rebalance(c, t);
            Deficient(Top, t') && Rebalance(Top, t') == t' && Slots(t') == CtxSlots(c) + Slots(t)
  {
    var t' := Rebalance(c, t);
    assert RedBlack(t') && InOrder(t') == InOrder(Plug(c, t)) by { RebalanceCorrect(c, t); }
    assert Blacken(t') == t';
    assert forall s :: s in Slots(t') <==> s in Slots(Plug(c, t)) by {
      SlotsInOrder(t');
      SlotsInOrder(Plug(c, t));
    }
    PlugUnique(c, t);
  }

  // ---------------------------------------------------------------- moving the focus, recolouring

  /** The hole and its parent, as one subtree. */
  function Enclosing(ctx: Ctx, t: Tree): (r: Tree)
    requires !ctx.Top?
    ensures r.Node?
  {
    if ctx.InLeft? then Node(ctx.color, t, ctx.slot, ctx.right) else Node(ctx.color, ctx.left, ctx.slot, t)
  }

  lemma Zoom(h: seq<Proc>, root: Ptr, ctx: Ctx, t: Tree)
    requires !ctx.Top?
    ensures At(h, root, ctx, t) <==> At(h, root, ctx.up, Enclosing(ctx, t))
    ensures CtxSlots(ctx) + Slots(t) == CtxSlots(ctx.up) + Slots(Enclosing(ctx, t))
    ensures Plug(ctx, t) == Plug(ctx.up, Enclosing(ctx, t))
  {
  }

  lemma RecolourAt(h: seq<Proc>, h': seq<Proc>, root: Ptr, ctx: Ctx, t: Tree, c: Color)
    requires At(h, root, ctx, t) && t.Node? && h' == h[t.slot := h[t.slot].(coloring := c)]
    ensures At(h', root, ctx, t.(color := c))
    ensures OnlyLinks(h, h', CtxSlots(ctx) + Slots(t))
  {
    RepFrame(h, h', t.left, t.slot, t.slot);
    RepFrame(h, h', t.right, t.slot, t.slot);
    RepCtxFrame(h, h', ctx, t.slot, t.slot);
  }

  /** The second slot of the queue does not lose its left child. */
  predicate SecondKeepsLeft(h: seq<Proc>, h': seq<Proc>, q: seq<Slot>) {
    |q| > 1 && q[1] < |h| && q[1] < |h'| && h[q[1]].left != NULL ==> h'[q[1]].left != NULL
  }

  /** A slot with two others before it in order is not the second. */
  lemma NotSecond(ctx: Ctx, t: Tree)
    requires Unique(t) && CtxUnique(ctx) && CtxSlots(ctx) !! Slots(t) && t.Node?
    requires |Before(ctx)| + |InOrder(t.left)| >= 2
    ensures |InOrder(Plug(ctx, t))| > 1 && InOrder(Plug(ctx, t))[1] != t.slot
  {
    PlugInOrder(ctx, t);
    PlugUnique(ctx, t);
    SlotsInOrder(Plug(ctx, t));
    assert InOrder(Plug(ctx, t))[|Before(ctx)| + |InOrder(t.left)|] == t.slot;
  }

  lemma {:induction false} FirstHasNoLeft(h: seq<Proc>, t: Tree, parent: Ptr)
    requires Rep(h, t, parent) && t.Node?
    ensures InOrder(t)[0] < |h| && h[InOrder(t)[0]].left == NULL
  {
    if t.left.Node? { FirstHasNoLeft(h, t.left, t.slot); }
  }

  /** Case 5 of insertionCases: the parent rotated above the grandparent, black over red. */
  function OuterRotation(ctx: Ctx, t: Tree): Tree
    requires !ctx.Top? && !ctx.up.Top?
  {
    if ctx.InLeft? then Node(Black, t, ctx.slot, Node(Red, ctx.right, ctx.up.slot, Uncle(ctx)))
    else Node(Black, Node(Red, Uncle(ctx), ctx.up.slot, ctx.left), ctx.slot, t)
  }

  /** Case 3 of insertionCases: parent and uncle black, grandparent red. */
  function FamilyRecoloured(ctx: Ctx, t: Tree): Tree
    requires !ctx.Top? && !ctx.up.Top?
  {
    var q := Blacken(Enclosing(ctx, t));
    if ctx.up.InLeft? then Node(Red, q, ctx.up.slot, Blacken(Uncle(ctx)))
    else Node(Red, Blacken(Uncle(ctx)), ctx.up.slot, q)
  }

  /** Case 5 of insertionCases, before its rotation: parent black, grandparent red. */
  function OuterPainted(ctx: Ctx, t: Tree): Tree
    requires !ctx.Top? && !ctx.up.Top?
  {
    var q := Blacken(Enclosing(ctx, t));
    if ctx.up.InLeft? then Node(Red, q, ctx.up.slot, Uncle(ctx)) else Node(Red, Uncle(ctx), ctx.up.slot, q)
  }

  /** Parent, grandparent and uncle as the links have them. */
  lemma FamilyLinks(h: seq<Proc>, root: Ptr, ctx: Ctx, t: Tree)
    requires At(h, root, ctx, t) && t.Node? && !ctx.Top? && !ctx.up.Top?
    ensures t.slot < |h| && h[t.slot].parentP == ctx.slot < |h|
    ensures h[ctx.slot].parentP == ctx.up.slot < |h|
    ensures (h[ctx.slot].left == t.slot <==> ctx.InLeft?) && (h[ctx.slot].right == t.slot <==> ctx.InRight?)
    ensures (h[ctx.up.slot].left == ctx.slot <==> ctx.up.InLeft?) &&
            (h[ctx.up.slot].right == ctx.slot <==> ctx.up.InRight?)
    ensures Root(Uncle(ctx)) == if ctx.up.InLeft? then h[ctx.up.slot].right else h[ctx.up.slot].left
    ensures Uncle(ctx).Node? ==> Uncle(ctx).slot < |h| && h[Uncle(ctx).slot].coloring == Uncle(ctx).color
    ensures Distinct4(t.slot, ctx.slot, ctx.up.slot, Root(Uncle(ctx)))
  {
    ParentSide(h, root, ctx, t);
    Zoom(h, root, ctx, t);
    ParentSide(h, root, ctx.up, Enclosing(ctx, t));
    assert RepCtx(h, ctx.up, ctx.slot);
  }

  predicate Distinct4(a: Ptr, b: Ptr, c: Ptr, d: Ptr) {
    a != b && a != c && a != d && b != c && b != d && c != d
  }

  lemma PaintOuterAt(h: seq<Proc>, h': seq<Proc>, root: Ptr, ctx: Ctx, t: Tree)
    requires At(h, root, ctx, t) && t.Node? && !ctx.Top? && !ctx.up.Top? && ctx.slot < |h| && ctx.up.slot < |h|
    requires ctx.slot != ctx.up.slot
    requires h' == h[ctx.up.slot := h[ctx.up.slot].(coloring := Red)][ctx.slot := h[ctx.slot].(coloring := Black)]
    ensures At(h', root, ctx.up.up, OuterPainted(ctx, t))
  {
    var h1 := h[ctx.up.slot := h[ctx.up.slot].(coloring := Red)];
    var g := Grandparent(ctx, t);
    assert At(h, root, ctx.up.up, g) by {
      Zoom(h, root, ctx, t);
      Zoom(h, root, ctx.up, Enclosing(ctx, t));
    }
    assert At(h1, root, ctx.up.up, g.(color := Red)) by { RecolourAt(h, h1, root, ctx.up.up, g, Red); }
    RecolourChildAt(h1, h', root, ctx.up.up, g.(color := Red), ctx.up.InLeft?, Black);
  }

  lemma RecolourChildAt(h: seq<Proc>, h': seq<Proc>, root: Ptr, ctx: Ctx, t: Tree, left: bool, c: Color)
    requires At(h, root, ctx, t) && t.Node? && (if left then t.left else t.right).Node?
    requires var s := (if left then t.left else t.right).slot;
             s < |h| && h' == h[s := h[s].(coloring := c)]
    ensures At(h', root, ctx, if left then t.(left := t.left.(color := c)) else t.(right := t.right.(color := c)))
  {
    if left {
      var childCtx := InLeft(t.color, ctx, t.slot, t.right);
      assert At(h, root, childCtx, t.left) by { Zoom(h, root, childCtx, t.left); }
      assert At(h', root, childCtx, t.left.(color := c)) by { RecolourAt(h, h', root, childCtx, t.left, c); }
      Zoom(h', root, childCtx, t.left.(color := c));
    } else {
      var childCtx := InRight(t.color, t.left, t.slot, ctx);
      assert At(h, root, childCtx, t.right) by { Zoom(h, root, childCtx, t.right); }
      assert At(h', root, childCtx, t.right.(color := c)) by { RecolourAt(h, h', root, childCtx, t.right, c); }
      Zoom(h', root, childCtx, t.right.(color := c));
    }
  }

  lemma PaintOuterSlots(ctx: Ctx, t: Tree)
    requires !ctx.Top? && !ctx.up.Top?
    ensures ctx.slot in CtxSlots(ctx) && ctx.up.slot in CtxSlots(ctx) && Slots(Uncle(ctx)) <= CtxSlots(ctx)
    ensures CtxSlots(ctx.up.up) + Slots(OuterPainted(ctx, t)) == CtxSlots(ctx) + Slots(t)
  {
    assert Slots(Blacken(Enclosing(ctx, t))) == Slots(Enclosing(ctx, t));
  }

  lemma RecolourFamilyAt(h: seq<Proc>, h': seq<Proc>, root: Ptr, ctx: Ctx, t: Tree)
    requires At(h, root, ctx, t) && t.Node? && !ctx.Top? && !ctx.up.Top? && ctx.slot < |h| && ctx.up.slot < |h|
    requires Uncle(ctx).Node? && Uncle(ctx).slot < |h| && Distinct4(t.slot, ctx.slot, ctx.up.slot, Uncle(ctx).slot)
    requires var u := Uncle(ctx).slot;
             h' == h[ctx.slot := h[ctx.slot].(coloring := Black)][u := h[u].(coloring := Black)]
                   [ctx.up.slot := h[ctx.up.slot].(coloring := Red)]
    ensures At(h', root, ctx.up.up, FamilyRecoloured(ctx, t))
  {
    hide Rep, RepCtx;
    var u := Uncle(ctx);
    var h1 := h[ctx.up.slot := h[ctx.up.slot].(coloring := Red)][ctx.slot := h[ctx.slot].(coloring := Black)];
    assert At(h1, root, ctx.up.up, OuterPainted(ctx, t)) by { PaintOuterAt(h, h1, root, ctx, t); }
    assert h' == h1[u.slot := h1[u.slot].(coloring := Black)];
    RecolourChildAt(h1, h', root, ctx.up.up, OuterPainted(ctx, t), !ctx.up.InLeft?, Black);
  }

  lemma RecolourOnly(h: seq<Proc>, h': seq<Proc>, p: Slot, u: Slot, g: Slot, slots: set<Slot>)
    requires p < |h| && u < |h| && g < |h| && p != u && p != g && u != g && p in slots && u in slots && g in slots
    requires h' == h[p := h[p].(coloring := Black)][u := h[u].(coloring := Black)][g := h[g].(coloring := Red)]
    ensures OnlyLinks(h, h', slots) && forall s :: 0 <= s < |h| ==> h'[s].left == h[s].left
  {
  }

  lemma PaintOnly(h: seq<Proc>, h': seq<Proc>, g: Slot, p: Slot, slots: set<Slot>)
    requires p < |h| && g < |h| && p != g && p in slots && g in slots
    requires h' == h[g := h[g].(coloring := Red)][p := h[p].(coloring := Black)]
    ensures OnlyLinks(h, h', slots) && forall s :: 0 <= s < |h| ==> h'[s].left == h[s].left
  {
  }

  lemma IsolateOnly(h: seq<Proc>, h': seq<Proc>, m: Slot, slots: set<Slot>)
    requires m < |h| && m in slots && h' == h[m := h[m].(parentP := NULL, left := NULL, right := NULL)]
    ensures OnlyLinks(h, h', slots)
  {
  }

  lemma FamilySlots(ctx: Ctx)
    requires !ctx.Top? && !ctx.up.Top?
    ensures ctx.slot in CtxSlots(ctx) && ctx.up.slot in CtxSlots(ctx) &&
            (Uncle(ctx).Node? ==> Uncle(ctx).slot in CtxSlots(ctx))
  {
    assert Uncle(ctx).Node? ==> Uncle(ctx).slot in Slots(Uncle(ctx));
  }

  lemma RecolourInOrder(ctx: Ctx, t: Tree)
    requires !ctx.Top? && !ctx.up.Top?
    ensures var g := FamilyRecoloured(ctx, t);
            InOrder(Plug(ctx.up.up, g)) == InOrder(Plug(ctx, t)) &&
            CtxSlots(ctx.up.up) + Slots(g) == CtxSlots(ctx) + Slots(t)
  {
    var q := Blacken(Enclosing(ctx, t));
    var g := FamilyRecoloured(ctx, t);
    PlugInOrder(ctx.up.up, g);
    PlugInOrder(ctx.up.up, Enclosing(ctx.up, Enclosing(ctx, t)));
    assert InOrder(q) == InOrder(Enclosing(ctx, t)) && Slots(q) == Slots(Enclosing(ctx, t));
    assert InOrder(Blacken(Uncle(ctx))) == InOrder(Uncle(ctx)) && Slots(Blacken(Uncle(ctx))) == Slots(Uncle(ctx));
  }

  lemma RecolourRepairable(ctx: Ctx, t: Tree)
    requires Repairable(ctx, t) && RedHole(ctx) && !ctx.up.Top? && IsRed(Uncle(ctx))
    ensures Repairable(ctx.up.up, FamilyRecoloured(ctx, t))
    ensures Repair(ctx.up.up, FamilyRecoloured(ctx, t)) == Repair(ctx, t)
  {
    assert CtxNoRedRed(ctx.up) && CtxBalanced(ctx.up, BlackHeight(t));
    var q, u := Blacken(Enclosing(ctx, t)), Blacken(Uncle(ctx));
    assert FamilyRecoloured(ctx, t) == if ctx.up.InLeft? then Lifted(q, ctx.up.slot, u) else Lifted(u, ctx.up.slot, q);
  }

  /** Case 4 of insertionCases: focus on the old parent once it is rotated below an inner child. */
  function InnerCtx(ctx: Ctx, t: Tree): Ctx
    requires t.Node? && !ctx.Top? && !ctx.up.Top? && ctx.InLeft? != ctx.up.InLeft?
  {
    if ctx.InRight? then InLeft(t.color, ctx.up, t.slot, t.right) else InRight(t.color, t.left, t.slot, ctx.up)
  }

  function InnerTree(ctx: Ctx, t: Tree): Tree
    requires t.Node? && !ctx.Top? && !ctx.up.Top? && ctx.InLeft? != ctx.up.InLeft?
  {
    if ctx.InRight? then Node(ctx.color, ctx.left, ctx.slot, t.left)
    else Node(ctx.color, t.right, ctx.slot, ctx.right)
  }

  lemma InnerAt(h: seq<Proc>, root: Ptr, ctx: Ctx, t: Tree)
    requires t.Node? && !ctx.Top? && !ctx.up.Top? && ctx.InLeft? != ctx.up.InLeft?
    requires var e := Enclosing(ctx, t);
             At(h, root, ctx.up, if ctx.InRight? then LeftRotation(e) else RightRotation(e))
    ensures At(h, root, InnerCtx(ctx, t), InnerTree(ctx, t))
    ensures t.slot < |h| && (if ctx.InRight? then h[t.slot].left else h[t.slot].right) == ctx.slot
  {
    Zoom(h, root, InnerCtx(ctx, t), InnerTree(ctx, t));
  }

  /** The inner rotation moves no slot, and the outer one then completes the repair. */
  lemma InnerCorrect(ctx: Ctx, t: Tree)
    requires Repairable(ctx, t) && RedHole(ctx) && !ctx.up.Top? && !IsRed(Uncle(ctx))
    ensures ctx.InLeft? == ctx.up.InLeft? ==> Plug(ctx.up.up, OuterRotation(ctx, t)) == Repair(ctx, t)
    ensures ctx.InLeft? != ctx.up.InLeft? ==>
              var c, i := InnerCtx(ctx, t), InnerTree(ctx, t);
              c.up == ctx.up && c.InLeft? == c.up.InLeft? &&
              Plug(c.up.up, OuterRotation(c, i)) == Repair(ctx, t) &&
              InOrder(Plug(c, i)) == InOrder(Plug(ctx, t)) &&
              CtxSlots(c) + Slots(i) == CtxSlots(ctx) + Slots(t)
  {
    if ctx.InLeft? != ctx.up.InLeft? {
      var e, i := Enclosing(ctx, t), Enclosing(InnerCtx(ctx, t), InnerTree(ctx, t));
      if ctx.InRight? { RotationInOrder(Red, Red, Red, Red, ctx.left, ctx.slot, t.left, t.slot, t.right); }
      else { RotationInOrder(Red, Red, Red, Red, t.left, t.slot, t.right, ctx.slot, ctx.right); }
      InnerInOrder(ctx, t, i);
    }
  }

  lemma InnerNotSecond(h: seq<Proc>, root: Ptr, ctx: Ctx, t: Tree)
    requires At(h, root, ctx, t) && t.Node? && ctx.InLeft? && ctx.up.InRight?
    ensures |InOrder(Plug(ctx, t))| > 1 && InOrder(Plug(ctx, t))[1] != ctx.slot
  {
    Zoom(h, root, ctx, t);
    NotSecond(ctx.up, Enclosing(ctx, t));
  }

  lemma OuterNotSecond(h: seq<Proc>, root: Ptr, ctx: Ctx, t: Tree)
    requires At(h, root, ctx, t) && t.Node? && ctx.InLeft? && ctx.up.InLeft?
    ensures |InOrder(Plug(ctx, t))| > 1 && InOrder(Plug(ctx, t))[1] != ctx.up.slot
  {
    Zoom(h, root, ctx, t);
    Zoom(h, root, ctx.up, Enclosing(ctx, t));
    NotSecond(ctx.up.up, Enclosing(ctx.up, Enclosing(ctx, t)));
  }

  lemma InnerInOrder(ctx: Ctx, t: Tree, e: Tree)
    requires !ctx.Top? && InOrder(e) == InOrder(Enclosing(ctx, t))
    ensures InOrder(Plug(ctx.up, e)) == InOrder(Plug(ctx, t))
    ensures CtxSlots(ctx.up) + Slots(e) == CtxSlots(ctx) + Slots(t)
  {
    PlugInOrder(ctx.up, e);
    PlugInOrder(ctx.up, Enclosing(ctx, t));
    SlotsInOrder(e);
    SlotsInOrder(Enclosing(ctx, t));
    assert Slots(e) == Slots(Enclosing(ctx, t));
  }

  lemma InsertDescends(h0: seq<Proc>, h: seq<Proc>, t: Tree, parent: Ptr, p: Slot)
    requires Rep(h0, t, parent) && Unique(t) && p < |h0| && p !in Slots(t)
    requires |h| == |h0| && h == h0[p := h[p]] && h[p].virtualRuntime == h0[p].virtualRuntime
    ensures Rep(h, t, parent) && VirtualRuntimes(h) == VirtualRuntimes(h0)
  {
    RepFrame(h0, h, t, parent, parent);
  }

  /** Linking the repaired child below `t` completes the insertion into `t`. */
  lemma InsertReturns(h: seq<Proc>, h1: seq<Proc>, h': seq<Proc>, t: Tree, parent: Ptr, p: Slot)
    requires Rep(h, t, parent) && Unique(t) && t.Node? && p < |h| && p !in Slots(t)
    requires var vr := VirtualRuntimes(h);
             var c := if Key(vr, t.slot) <= Key(vr, p) then t.right else t.left;
             var c' := InsertLeaf(vr, c, p);
             Rep(h1, c', t.slot) && Unique(c') && Slots(c') == Slots(c) + {p} && OnlyLinks(h, h1, Slots(c) + {p}) &&
             h' == h1[t.slot := if c == t.right && Key(vr, t.slot) <= Key(vr, p) then h1[t.slot].(right := Root(c'))
                                else h1[t.slot].(left := Root(c'))]
    ensures var t' := InsertLeaf(VirtualRuntimes(h), t, p);
            Rep(h', t', parent) && Unique(t') && Slots(t') == Slots(t) + {p}
    ensures OnlyLinks(h, h', Slots(t) + {p})
  {
    var vr := VirtualRuntimes(h);
    if Key(vr, t.slot) <= Key(vr, p) {
      RepFrame(h, h', t.left, t.slot, t.slot);
      RepFrame(h1, h', InsertLeaf(vr, t.right, p), t.slot, t.slot);
    } else {
      RepFrame(h, h', t.right, t.slot, t.slot);
      RepFrame(h1, h', InsertLeaf(vr, t.left, p), t.slot, t.slot);
    }
  }

  lemma AtFrame(h: seq<Proc>, h': seq<Proc>, root: Ptr, ctx: Ctx, t: Tree)
    requires At(h, root, ctx, t) && |h| == |h'|
    requires forall s :: s in CtxSlots(ctx) + Slots(t) && s < |h| ==> SameLinks(h[s], h'[s])
    ensures At(h', root, ctx, t)
  {
    RepFrame(h, h', t, ParentOf(ctx), ParentOf(ctx));
    RepCtxFrame(h, h', ctx, Root(t), Root(t));
  }

  /** A slot outside a tree of the table leaves room for it. */
  lemma RoomForOneMore(h: seq<Proc>, t: Tree, parent: Ptr, p: Slot)
    requires Rep(h, t, parent) && Unique(t) && p < |h| && p !in Slots(t)
    ensures |InOrder(t)| < |h|
  {
    RepInTable(h, t, parent);
    CountInOrder(t);
    SubsetCount(Slots(t) + {p}, Upto(|h|));
  }

  function Upto(n: nat): (r: set<Slot>)
    ensures |r| == n && forall s: Slot :: s in r <==> s < n
  {
    if n == 0 then {} else Upto(n - 1) + {n - 1}
  }

  lemma {:induction false} SubsetCount(a: set<Slot>, b: set<Slot>)
    requires a <= b
    ensures |a| <= |b|
  {
    if a != {} {
      var x :| x in a;
      SubsetCount(a - {x}, b - {x});
    }
  }

  /** The new leaf comes first in order exactly when the second slot is its parent, on the left. */
  lemma {:induction false} FirstLeaf(h: seq<Proc>, ctx: Ctx, p: Slot)
    requires RepCtx(h, ctx, p) && Before(ctx) == [] && !ctx.Top?
    ensures var q := InOrder(Plug(ctx, Node(Red, Leaf, p, Leaf)));
            |q| > 1 && q[1] < |h| && h[q[1]].left == p
  {
    PlugInOrder(ctx, Node(Red, Leaf, p, Leaf));
  }

  /** After an insertion the old minimum has a left child exactly when it is no longer the minimum. */
  lemma MinimumRefresh(h1: seq<Proc>, root1: Ptr, ctx: Ctx, p: Slot, h2: seq<Proc>, root2: Ptr, t: Tree, q: seq<Slot>)
    requires At(h1, root1, ctx, Node(Red, Leaf, p, Leaf)) && At(h2, root2, Top, t) && |h1| == |h2|
    requires InOrder(t) == InOrder(Plug(ctx, Node(Red, Leaf, p, Leaf)))
    requires SecondKeepsLeft(h1, h2, InOrder(t))
    requires q == InOrder(Plug(ctx, Leaf)) && q != []
    ensures InOrder(t) != [] && q[0] < |h2|
    ensures h2[q[0]].left == NULL <==> InOrder(t)[0] == q[0]
  {
    PlugInOrder(ctx, Node(Red, Leaf, p, Leaf));
    PlugInOrder(ctx, Leaf);
    FirstHasNoLeft(h2, t, NULL);
    if Before(ctx) == [] {
      FirstLeaf(h1, ctx, p);
      assert InOrder(t) == [p] + q;
    } else {
      assert InOrder(t)[0] == Before(ctx)[0] == q[0];
    }
  }

  /** Slots outside the tree have no children. */
  predicate Childless(h: seq<Proc>, slots: set<Slot>) {
    forall s: Slot :: s < |h| && s !in slots ==> h[s].left == NULL && h[s].right == NULL
  }

  lemma ChildlessInserted(h: seq<Proc>, h': seq<Proc>, slots: set<Slot>, p: Slot)
    requires OnlyLinks(h, h', slots + {p}) && Childless(h, slots)
    ensures Childless(h', slots + {p})
  {
  }

  lemma ChildlessRemoved(h: seq<Proc>, h': seq<Proc>, slots: set<Slot>, slots': set<Slot>, m: Slot)
    requires OnlyLinks(h, h', slots) && Childless(h, slots) && forall s: Slot :: s in slots ==> s in slots' || s == m
    requires m < |h'| && h'[m].left == NULL && h'[m].right == NULL
    ensures Childless(h', slots')
  {
  }

  lemma SliceOnly(h: seq<Proc>, h1: seq<Proc>, h2: seq<Proc>, m: Slot, slots: set<Slot>)
    requires OnlyLinks(h, h1, slots) && m in slots && m < |h1| && |h2| == |h1|
    requires h2 == h1[m := h1[m].(maximumExecutiontime := h2[m].maximumExecutiontime)]
    ensures OnlyLinks(h[m := h[m].(maximumExecutiontime := h2[m].maximumExecutiontime)], h2, slots)
  {
  }

  lemma EnqueuedMembers(vr: seq<int>, q: seq<Slot>, p: Slot)
    requires Sorted(vr, q)
    ensures forall x: Slot :: x in Enqueue(vr, q, p) <==> x == p || x in q
  {
    hide Enqueue;
    var k := EnqueueCut(vr, q, p);
    assert q == q[..k] + q[k..];
  }

  lemma InsertedSlots(vr: seq<int>, t: Tree, p: Slot)
    requires RedBlack(t) && Unique(t) && p !in Slots(t) && Sorted(vr, InOrder(t))
    ensures Slots(Inserted(vr, t, p)) == Slots(t) + {p}
  {
    InsertedCorrect(vr, t, p);
    SlotsInOrder(t);
    SlotsInOrder(Inserted(vr, t, p));
    EnqueuedMembers(vr, InOrder(t), p);
  }

  lemma SortedOutside(h: seq<Proc>, h': seq<Proc>, q: seq<Slot>, p: Slot)
    requires |h'| == |h| && Sorted(VirtualRuntimes(h), q) && p !in q
    requires forall s :: 0 <= s < |h| && s != p ==> h'[s].virtualRuntime == h[s].virtualRuntime
    ensures Sorted(VirtualRuntimes(h'), q)
  {
    var vr, vr' := VirtualRuntimes(h), VirtualRuntimes(h');
    forall i, j | 0 <= i < j < |q| ensures Key(vr', q[i]) <= Key(vr', q[j]) {
      assert Key(vr, q[i]) <= Key(vr, q[j]);
      assert q[i] in q && q[j] in q;
    }
  }

  lemma OnlyLinksJoin(h: seq<Proc>, h1: seq<Proc>, h2: seq<Proc>, a: set<Slot>)
    requires OnlyLinks(h, h1, a) && OnlyLinks(h1, h2, a)
    ensures OnlyLinks(h, h2, a)
  {
  }

  /** Total weight of the slots of a queue. */
  function WeightSum(h: seq<Proc>, q: seq<Slot>): int {
    if q == [] then 0 else (if q[0] < |h| then h[q[0]].weightValue else 0) + WeightSum(h, q[1..])
  }

  lemma {:induction false} WeightSumConcat(h: seq<Proc>, a: seq<Slot>, b: seq<Slot>)
    ensures WeightSum(h, a + b) == WeightSum(h, a) + WeightSum(h, b)
  {
    if a == [] {
      assert a + b == b;
    } else {
      assert (a + b)[1..] == a[1..] + b;
      WeightSumConcat(h, a[1..], b);
    }
  }

  /** A queue that gained `p` weighs that much more, and stays sorted. */
  lemma EnqueuedWeight(h: seq<Proc>, h': seq<Proc>, q: seq<Slot>, p: Slot)
    requires |h| == |h'| && p < |h| && p !in q && Sorted(VirtualRuntimes(h), q)
    requires forall s :: 0 <= s < |h| ==> h'[s].virtualRuntime == h[s].virtualRuntime
    requires forall s :: 0 <= s < |h| && s != p ==> h'[s].weightValue == h[s].weightValue
    ensures var q' := Enqueue(VirtualRuntimes(h), q, p);
            WeightSum(h', q') == WeightSum(h, q) + h'[p].weightValue && Sorted(VirtualRuntimes(h'), q')
  {
    var vr := VirtualRuntimes(h);
    assert VirtualRuntimes(h') == vr;
    var k := EnqueueCut(vr, q, p);
    WeightSumFrame(h, h', q);
    assert q == q[..k] + q[k..];
    WeightSumConcat(h', q[..k], q[k..]);
    WeightSumConcat(h', q[..k] + [p], q[k..]);
    WeightSumConcat(h', q[..k], [p]);
  }

  /** A queue that lost its first slot weighs that much less, and stays sorted. */
  lemma DequeuedWeight(h: seq<Proc>, h': seq<Proc>, q: seq<Slot>)
    requires |h| == |h'| && q != [] && q[0] < |h| && Sorted(VirtualRuntimes(h), q)
    requires forall s :: 0 <= s < |h| ==> h'[s].virtualRuntime == h[s].virtualRuntime
    requires forall s :: 0 <= s < |h| ==> h'[s].weightValue == h[s].weightValue
    ensures WeightSum(h', q[1..]) == WeightSum(h, q) - h[q[0]].weightValue && Sorted(VirtualRuntimes(h'), q[1..])
  {
    assert VirtualRuntimes(h') == VirtualRuntimes(h);
    WeightSumFrame(h, h', q[1..]);
  }

  /** Changing the weight of one slot changes the total exactly when the slot is queued. */
  lemma {:induction false} ReweighedSum(h: seq<Proc>, h': seq<Proc>, q: seq<Slot>, p: Slot)
    requires |h| == |h'| && p < |h| && NoDup(q)
    requires forall s :: 0 <= s < |h| && s != p ==> h'[s].weightValue == h[s].weightValue
    ensures WeightSum(h', q) == WeightSum(h, q) + if p in q then h'[p].weightValue - h[p].weightValue else 0
  {
    if q != [] {
      assert q == [q[0]] + q[1..];
      NoDupConcat([q[0]], q[1..]);
      assert q[0] in [q[0]];
      ReweighedSum(h, h', q[1..], p);
    }
  }

  lemma {:induction false} WeightSumFrame(h: seq<Proc>, h': seq<Proc>, q: seq<Slot>)
    requires |h| == |h'| && forall s :: s in q && s < |h| ==> h'[s].weightValue == h[s].weightValue
    ensures WeightSum(h', q) == WeightSum(h, q)
  {
    if q != [] { WeightSumFrame(h, h', q[1..]); }
  }
}

module RunQueues {
  import opened RbTree
  import opened ProcTable
  import opened Weights

  const LATENCY: int := NPROC / 2
  const MIN_GRANULARITY: int := 2

  /** The scheduling period after a selection among `count` queued processes. */
  function PeriodFor(count: int, period: int): int {
    if count > LATENCY / MIN_GRANULARITY then count * MIN_GRANULARITY else period
  }

  /** Division as the machine does it: towards zero, and -1 when the divisor is zero. */
  function MachineDiv(a: int, b: int): int {
    if b == 0 then -1
    else if a >= 0 then a / b
    else -((-a) / b)
  }

  class RunQueue {
    const proc: array<Proc>
    var root: Ptr
    var count: int
    var rbTreeWeight: int
    var minVRuntime: Ptr
    var period: int
    ghost var tree: Tree

    ghost predicate Linked(ctx: Ctx, t: Tree)
      reads this, proc
    {
      At(proc[..], root, ctx, t)
    }

    // -------------------------------------------------------------- rotations

    method RotateLeft(x: Slot)
      requires CanRotateLeft(proc[..], x)
      modifies this`root, proc
      ensures var y := old(proc[x].right);
              forall s :: 0 <= s < proc.Length ==>
                proc[s] == RotatedSlot(old(proc[..]), s, x, y, old(proc[proc[x].right].left), true)
      ensures root == if old(proc[x].parentP) == NULL then old(proc[x].right) else old(root)
    {
      var y := proc[x].right;
      proc[x] := proc[x].(right := proc[y].left);
      if proc[y].left != NULL {
        var b := proc[y].left;
        proc[b] := proc[b].(parentP := x);
      }
      proc[y] := proc[y].(parentP := proc[x].parentP);
      var p := proc[x].parentP;
      if p == NULL {
        root := y;
      } else if x == proc[p].left {
        proc[p] := proc[p].(left := y);
      } else {
        proc[p] := proc[p].(right := y);
      }
      proc[y] := proc[y].(left := x);
      proc[x] := proc[x].(parentP := y);
    }

    method RotateRight(x: Slot)
      requires CanRotateRight(proc[..], x)
      modifies this`root, proc
      ensures var y := old(proc[x].left);
              forall s :: 0 <= s < proc.Length ==>
                proc[s] == RotatedSlot(old(proc[..]), s, x, y, old(proc[proc[x].left].right), false)
      ensures root == if old(proc[x].parentP) == NULL then old(proc[x].left) else old(root)
    {
      var y := proc[x].left;
      proc[x] := proc[x].(left := proc[y].right);
      if proc[y].right != NULL {
        var b := proc[y].right;
        proc[b] := proc[b].(parentP := x);
      }
      proc[y] := proc[y].(parentP := proc[x].parentP);
      var p := proc[x].parentP;
      if p == NULL {
        root := y;
      } else if x == proc[p].right {
        proc[p] := proc[p].(right := y);
      } else {
        proc[p] := proc[p].(left := y);
      }
      proc[y] := proc[y].(right := x);
      proc[x] := proc[x].(parentP := y);
    }

    /** RotateLeft, seen from the tree. */
    method RotateLeftFocus(x: Slot, ghost ctx: Ctx, ghost t: Tree)
      requires Linked(ctx, t) && t.Node? && t.slot == x && t.right.Node?
      modifies this`root, proc
      ensures Linked(ctx, LeftRotation(t))
      ensures OnlyLinks(old(proc[..]), proc[..], CtxSlots(ctx) + Slots(t))
      ensures forall s :: 0 <= s < proc.Length && old(proc[s].left) != NULL ==> proc[s].left != NULL
    {
      RotationReady(proc[..], root, ctx, t);
      ParentSide(proc[..], root, ctx, t);
      assert Rep(proc[..], t.right, x);
      RotateLeft(x);
      RotateLeftAt(old(proc[..]), proc[..], old(root), ctx, t);
    }

    method RotateRightFocus(x: Slot, ghost ctx: Ctx, ghost t: Tree)
      requires Linked(ctx, t) && t.Node? && t.slot == x && t.left.Node?
      modifies this`root, proc
      ensures Linked(ctx, RightRotation(t))
      ensures OnlyLinks(old(proc[..]), proc[..], CtxSlots(ctx) + Slots(t))
      ensures forall s :: 0 <= s < proc.Length && s != x && old(proc[s].left) != NULL ==> proc[s].left != NULL
    {
      RotationReady(proc[..], root, ctx, t);
      ParentSide(proc[..], root, ctx, t);
      assert Rep(proc[..], t.left, x);
      RotateRight(x);
      RotateRightAt(old(proc[..]), proc[..], old(root), ctx, t);
    }

    /** `p->coloring = c`, seen from the tree. */
    method Paint(p: Slot, c: Color, ghost ctx: Ctx, ghost t: Tree)
      requires Linked(ctx, t) && t.Node? && t.slot == p
      modifies proc
      ensures Linked(ctx, t.(color := c))
      ensures OnlyLinks(old(proc[..]), proc[..], CtxSlots(ctx) + Slots(t))
      ensures proc[..] == old(proc[..])[p := old(proc[p]).(coloring := c)]
    {
      proc[p] := proc[p].(coloring := c);
      RecolourAt(old(proc[..]), proc[..], root, ctx, t, c);
    }

    // -------------------------------------------------------------- insertion

    method RetrieveGrandparent(n: Ptr) returns (g: Ptr)
      requires n == NULL || (n < proc.Length && SlotOrNull(proc[..], proc[n].parentP))
      ensures g == if n == NULL || proc[n].parentP == NULL then NULL else proc[proc[n].parentP].parentP
    {
      if n != NULL && proc[n].parentP != NULL {
        return proc[proc[n].parentP].parentP;
      }
      return NULL;
    }

    method RetrieveUncle(n: Slot, ghost ctx: Ctx, ghost t: Tree) returns (u: Ptr)
      requires Linked(ctx, t) && t.Node? && t.slot == n
      ensures u == if ctx.Top? || ctx.up.Top? then NULL else Root(Uncle(ctx))
    {
      if !ctx.Top? { Zoom(proc[..], root, ctx, t); ParentSide(proc[..], root, ctx.up, Enclosing(ctx, t)); }
      ParentSide(proc[..], root, ctx, t);
      var g := RetrieveGrandparent(n);
      if g != NULL {
        if proc[n].parentP == proc[g].left {
          return proc[g].right;
        } else {
          return proc[g].left;
        }
      }
      return NULL;
    }

    method InsertionCase1(n: Slot, ghost ctx: Ctx, ghost t: Tree)
      requires Linked(ctx, t) && Repairable(ctx, t) && t.slot == n
      modifies this`root, proc
      ensures Linked(Top, Repair(ctx, t))
      ensures OnlyLinks(old(proc[..]), proc[..], CtxSlots(ctx) + Slots(t))
      ensures SecondKeepsLeft(old(proc[..]), proc[..], InOrder(Plug(ctx, t)))
      decreases ctx, 4
    {
      ParentSide(proc[..], root, ctx, t);
      if proc[n].parentP == NULL {
        Paint(n, Black, ctx, t);
      } else {
        InsertionCase2(n, ctx, t);
      }
    }

    method InsertionCase2(n: Slot, ghost ctx: Ctx, ghost t: Tree)
      requires Linked(ctx, t) && Repairable(ctx, t) && t.slot == n && !ctx.Top?
      modifies this`root, proc
      ensures Linked(Top, Repair(ctx, t))
      ensures OnlyLinks(old(proc[..]), proc[..], CtxSlots(ctx) + Slots(t))
      ensures SecondKeepsLeft(old(proc[..]), proc[..], InOrder(Plug(ctx, t)))
      decreases ctx, 3
    {
      ParentSide(proc[..], root, ctx, t);
      if proc[proc[n].parentP].coloring == Red {
        InsertionCase3(n, ctx, t);
      } else {
        AtPlug(proc[..], root, ctx, t);
      }
    }

    /** The recolouring of case 3: parent and uncle black, grandparent red. */
    method RepaintFamily(n: Slot, u: Slot, ghost ctx: Ctx, ghost t: Tree) returns (g: Slot)
      requires Linked(ctx, t) && t.Node? && t.slot == n && !ctx.Top? && !ctx.up.Top?
      requires Uncle(ctx).Node? && Uncle(ctx).slot == u
      modifies proc
      ensures g == ctx.up.slot && Linked(ctx.up.up, FamilyRecoloured(ctx, t))
      ensures OnlyLinks(old(proc[..]), proc[..], CtxSlots(ctx) + Slots(t))
      ensures forall s :: 0 <= s < proc.Length ==> proc[s].left == old(proc[s].left)
    {
      FamilySlots(ctx);
      hide Rep, RepCtx, FamilyRecoloured, Slots, CtxSlots;
      FamilyLinks(proc[..], root, ctx, t);
      var p := proc[n].parentP;
      proc[p] := proc[p].(coloring := Black);
      proc[u] := proc[u].(coloring := Black);
      g := RetrieveGrandparent(n);
      proc[g] := proc[g].(coloring := Red);
      RecolourFamilyAt(old(proc[..]), proc[..], root, ctx, t);
      RecolourOnly(old(proc[..]), proc[..], p, u, g, CtxSlots(ctx) + Slots(t));
    }

    method InsertionCase3(n: Slot, ghost ctx: Ctx, ghost t: Tree)
      requires Linked(ctx, t) && Repairable(ctx, t) && t.slot == n && RedHole(ctx)
      modifies this`root, proc
      ensures Linked(Top, Repair(ctx, t))
      ensures OnlyLinks(old(proc[..]), proc[..], CtxSlots(ctx) + Slots(t))
      ensures SecondKeepsLeft(old(proc[..]), proc[..], InOrder(Plug(ctx, t)))
      decreases ctx, 2
    {
      hide Rep, RepCtx;
      FamilyLinks(proc[..], root, ctx, t);
      var u := RetrieveUncle(n, ctx, t);
      if u != NULL && proc[u].coloring == Red {
        var g := RepaintFamily(n, u, ctx, t);
        ghost var h1 := proc[..];
        RecolourInOrder(ctx, t);
        RecolourRepairable(ctx, t);
        InsertionCase1(g, ctx.up.up, FamilyRecoloured(ctx, t));
        OnlyLinksJoin(old(proc[..]), h1, proc[..], CtxSlots(ctx) + Slots(t));
      } else {
        InsertionCase4(n, ctx, t);
      }
    }

    /** The rotation of case 4: an inner child and its parent change places; an outer child stays. */
    method RotateInner(n: Slot, ghost ctx: Ctx, ghost t: Tree) returns (m: Slot, ghost c: Ctx, ghost u: Tree)
      requires Linked(ctx, t) && Repairable(ctx, t) && t.slot == n && RedHole(ctx)
      requires !ctx.up.Top? && !IsRed(Uncle(ctx))
      modifies this`root, proc
      ensures Linked(c, u) && u.Node? && u.slot == m && !c.Top? && c.up == ctx.up && c.InLeft? == c.up.InLeft?
      ensures Plug(c.up.up, OuterRotation(c, u)) == Repair(ctx, t)
      ensures InOrder(Plug(c, u)) == InOrder(Plug(ctx, t)) && CtxSlots(c) + Slots(u) == CtxSlots(ctx) + Slots(t)
      ensures OnlyLinks(old(proc[..]), proc[..], CtxSlots(ctx) + Slots(t))
      ensures SecondKeepsLeft(old(proc[..]), proc[..], InOrder(Plug(ctx, t)))
    {
      hide Rep, RepCtx;
      FamilyLinks(proc[..], root, ctx, t);
      Zoom(proc[..], root, ctx, t);
      InnerCorrect(ctx, t);
      var g := RetrieveGrandparent(n);
      var p := proc[n].parentP;
      if n == proc[p].right && p == proc[g].left {
        RotateLeftFocus(p, ctx.up, Enclosing(ctx, t));
        InnerAt(proc[..], root, ctx, t);
        m, c, u := proc[n].left, InnerCtx(ctx, t), InnerTree(ctx, t);
      } else if n == proc[p].left && p == proc[g].right {
        InnerNotSecond(proc[..], root, ctx, t);
        RotateRightFocus(p, ctx.up, Enclosing(ctx, t));
        InnerAt(proc[..], root, ctx, t);
        m, c, u := proc[n].right, InnerCtx(ctx, t), InnerTree(ctx, t);
      } else {
        m, c, u := n, ctx, t;
      }
    }

    method InsertionCase4(n: Slot, ghost ctx: Ctx, ghost t: Tree)
      requires Linked(ctx, t) && Repairable(ctx, t) && t.slot == n && RedHole(ctx)
      requires !ctx.up.Top? && !IsRed(Uncle(ctx))
      modifies this`root, proc
      ensures Linked(Top, Repair(ctx, t))
      ensures OnlyLinks(old(proc[..]), proc[..], CtxSlots(ctx) + Slots(t))
      ensures SecondKeepsLeft(old(proc[..]), proc[..], InOrder(Plug(ctx, t)))
      decreases ctx, 1
    {
      ghost var c, u;
      var m;
      m, c, u := RotateInner(n, ctx, t);
      InsertionCase5(m, c, u);
    }

    method InsertionCase5(n: Slot, ghost ctx: Ctx, ghost t: Tree)
      requires Linked(ctx, t) && t.Node? && t.slot == n && !ctx.Top? && !ctx.up.Top?
      requires ctx.InLeft? == ctx.up.InLeft?
      modifies this`root, proc
      ensures Linked(Top, Plug(ctx.up.up, OuterRotation(ctx, t)))
      ensures OnlyLinks(old(proc[..]), proc[..], CtxSlots(ctx) + Slots(t))
      ensures SecondKeepsLeft(old(proc[..]), proc[..], InOrder(Plug(ctx, t)))
      decreases ctx, 0
    {
      hide Rep, RepCtx;
      FamilyLinks(proc[..], root, ctx, t);
      ghost var up := ctx.up.up;
      var g := RetrieveGrandparent(n);
      if g != NULL {
        proc[g] := proc[g].(coloring := Red);
        var p := proc[n].parentP;
        proc[p] := proc[p].(coloring := Black);
        ghost var g', h1 := OuterPainted(ctx, t), proc[..];
        PaintOuterAt(old(proc[..]), h1, root, ctx, t);
        PaintOuterSlots(ctx, t);
        PaintOnly(old(proc[..]), h1, g, p, CtxSlots(ctx) + Slots(t));
        if n == proc[p].left && p == proc[g].left {
          OuterNotSecond(old(proc[..]), root, ctx, t);
          RotateRightFocus(g, up, g');
        } else if n == proc[p].right && p == proc[g].right {
          RotateLeftFocus(g, up, g');
        }
        AtPlug(proc[..], root, up, OuterRotation(ctx, t));
        OnlyLinksJoin(old(proc[..]), h1, proc[..], CtxSlots(ctx) + Slots(t));
      }
    }

    /** Recursive descent to the new leaf; the parent links on the way are set again. */
    method InsertProc(trav: Ptr, p: Slot, ghost t: Tree, ghost parent: Ptr) returns (r: Ptr)
      requires Rep(proc[..], t, parent) && Unique(t) && trav == Root(t)
      requires p < proc.Length && p !in Slots(t) && proc[p].left == NULL && proc[p].right == NULL
      requires t.Leaf? ==> proc[p].parentP == parent
      modifies proc
      ensures var t' := InsertLeaf(VirtualRuntimes(old(proc[..])), t, p);
              r == Root(t') && Rep(proc[..], t', parent) && Unique(t') && Slots(t') == Slots(t) + {p}
      ensures OnlyLinks(old(proc[..]), proc[..], Slots(t) + {p})
      decreases t
    {
      proc[p] := proc[p].(coloring := Red);
      if trav == NULL {
        return p;
      }
      proc[p] := proc[p].(parentP := trav);
      ghost var h := proc[..];
      InsertDescends(old(proc[..]), h, t, parent, p);
      if proc[trav].virtualRuntime <= proc[p].virtualRuntime {
        var child := InsertProc(proc[trav].right, p, t.right, trav);
        ghost var h' := proc[..];
        proc[trav] := proc[trav].(right := child);
        InsertReturns(h, h', proc[..], t, parent, p);
      } else {
        var child := InsertProc(proc[trav].left, p, t.left, trav);
        ghost var h' := proc[..];
        proc[trav] := proc[trav].(left := child);
        InsertReturns(h, h', proc[..], t, parent, p);
      }
      return trav;
    }

    /** The leftmost slot of a subtree. */
    method SetMinimumVRuntime(trav: Ptr, ghost t: Tree, ghost parent: Ptr) returns (m: Ptr)
      requires Rep(proc[..], t, parent) && trav == Root(t)
      ensures m == if t.Leaf? then NULL else InOrder(t)[0]
      decreases t
    {
      if trav != NULL {
        if proc[trav].left != NULL {
          m := SetMinimumVRuntime(proc[trav].left, t.left, trav);
        } else {
          m := trav;
        }
      } else {
        m := NULL;
      }
    }

    ghost function Queue(): seq<Slot>
      reads this
    {
      InOrder(tree)
    }

    /** The tree, its order and the cached count and minimum. */
    ghost predicate TreeValid()
      reads this, proc
    {
      proc.Length == NPROC && Linked(Top, tree) && RedBlack(tree) &&
      Sorted(VirtualRuntimes(proc[..]), Queue()) &&
      count == |Queue()| &&
      minVRuntime == (if Queue() == [] then NULL else Queue()[0])
    }

    /** And no slot outside the tree has children. */
    ghost predicate Valid()
      reads this, proc
    {
      TreeValid() && Childless(proc[..], Slots(tree))
    }

    /** rbinit, on the zeroed table of a fresh kernel. */
    method Rbinit()
      requires proc.Length == NPROC && Childless(proc[..], {})
      modifies this
      ensures Valid() && Queue() == [] && Drift() == 0 && rbTreeWeight == 0 && period == LATENCY
    {
      count := 0;
      root := NULL;
      rbTreeWeight := 0;
      minVRuntime := NULL;
      period := LATENCY;
      tree := Leaf;
    }

    /** How far the running weight total is off the queued weights. */
    ghost function Drift(): int
      reads this, proc
    {
      rbTreeWeight - WeightSum(proc[..], Queue())
    }

    /** The new leaf hangs from its path. */
    method Hang(p: Slot)
      requires TreeValid() && p < NPROC && p !in Slots(tree) && proc[p].left == NULL && proc[p].right == NULL
      modifies this`root, proc
      ensures var vr := VirtualRuntimes(old(proc[..]));
              Linked(InsertPath(vr, Top, tree, p), Node(Red, Leaf, p, Leaf))
      ensures OnlyLinks(old(proc[..]), proc[..], Slots(tree) + {p})
    {
      ghost var vr := VirtualRuntimes(proc[..]);
      ghost var parent := if tree.Leaf? then proc[p].parentP else NULL;
      root := InsertProc(root, p, tree, parent);
      if count == 0 {
        assert InOrder(tree) == [];
        proc[root] := proc[root].(parentP := NULL);
      }
      assert Rep(proc[..], InsertLeaf(vr, tree, p), NULL);
      InsertPathPlug(vr, Top, tree, p);
      AtPlug(proc[..], root, InsertPath(vr, Top, tree, p), Node(Red, Leaf, p, Leaf));
    }

    /** Links, count and weight of `p` before the repair. */
    method Attach(p: Slot)
      requires TreeValid() && p < NPROC && p !in Slots(tree) && proc[p].left == NULL && proc[p].right == NULL
      modifies this, proc
      ensures var vr := VirtualRuntimes(old(proc[..]));
              Linked(InsertPath(vr, Top, old(tree), p), Node(Red, Leaf, p, Leaf))
      ensures proc[p].weightValue == WeightOf(old(proc[p].niceValue))
      ensures OnlyLinks(old(proc[..])[p := old(proc[p]).(weightValue := proc[p].weightValue)], proc[..],
                        Slots(tree) + {p})
      ensures count == old(count) + 1 && rbTreeWeight == old(rbTreeWeight) + proc[p].weightValue
      ensures tree == old(tree) && minVRuntime == old(minVRuntime) && period == old(period)
    {
      ghost var vr := VirtualRuntimes(proc[..]);
      Hang(p);
      count := count + 1;
      ghost var h := proc[..];
      var w := CalculateWeight(proc[p].niceValue);
      proc[p] := proc[p].(weightValue := w);
      rbTreeWeight := rbTreeWeight + proc[p].weightValue;
      AtFrame(h, proc[..], root, InsertPath(vr, Top, tree, p), Node(Red, Leaf, p, Leaf));
    }

    /** Descent, count, weight and repair; the cached minimum is refreshed by the caller. */
    method AttachAndRepair(p: Slot)
      requires TreeValid() && p < NPROC && p !in Slots(tree) && proc[p].left == NULL && proc[p].right == NULL
      modifies this, proc
      ensures RedBlack(tree) && tree == Inserted(VirtualRuntimes(old(proc[..])), old(tree), p) && Linked(Top, tree)
      ensures proc[p].weightValue == WeightOf(old(proc[p].niceValue))
      ensures OnlyLinks(old(proc[..])[p := old(proc[p]).(weightValue := proc[p].weightValue)], proc[..],
                        Slots(old(tree)) + {p})
      ensures count == old(count) + 1 && rbTreeWeight == old(rbTreeWeight) + proc[p].weightValue
      ensures minVRuntime == old(minVRuntime) && period == old(period)
      ensures old(Queue()) != [] ==>
                var m := old(Queue())[0];
                m < proc.Length && (proc[m].left == NULL <==> Queue() != [] && Queue()[0] == m)
    {
      hide Rep, RepCtx, Enqueue, InsertLeaf, InOrder;
      ghost var q, vr := Queue(), VirtualRuntimes(proc[..]);
      ghost var path, leaf := InsertPath(vr, Top, tree, p), Node(Red, Leaf, p, Leaf);
      InsertPathPlug(vr, Top, tree, p);
      InsertedCorrect(vr, tree, p);
      Attach(p);
      ghost var h1, root1 := proc[..], root;
      PlugUnique(path, Leaf);
      InsertRepairable(vr, tree, p);
      InsertionCase1(p, path, leaf);
      tree := Inserted(vr, tree, p);
      InsertLeafInOrder(vr, old(tree), p);
      if q != [] { MinimumRefresh(h1, root1, path, p, proc[..], root, tree, q); }
      OnlyLinksJoin(old(proc[..])[p := old(proc[p]).(weightValue := proc[p].weightValue)], h1, proc[..],
                    Slots(old(tree)) + {p});
    }

    /** The body of insertProcess when the tree is not full. */
    method PutInTree(p: Slot)
      requires TreeValid() && p < NPROC && p !in Slots(tree) && proc[p].left == NULL && proc[p].right == NULL
      modifies this, proc
      ensures TreeValid() && tree == Inserted(VirtualRuntimes(old(proc[..])), old(tree), p)
      ensures Queue() == Enqueue(VirtualRuntimes(old(proc[..])), old(Queue()), p)
      ensures proc[p].weightValue == WeightOf(old(proc[p].niceValue))
      ensures OnlyLinks(old(proc[..])[p := old(proc[p]).(weightValue := proc[p].weightValue)], proc[..],
                        old(Slots(tree)) + {p})
      ensures rbTreeWeight == old(rbTreeWeight) + proc[p].weightValue && period == old(period)
      ensures Drift() == old(Drift())
    {
      ghost var h, q, vr := proc[..], Queue(), VirtualRuntimes(proc[..]);
      InsertedCorrect(vr, tree, p);
      SlotsInOrder(tree);
      AttachAndRepair(p);
      assert Drift() == old(Drift()) && Sorted(VirtualRuntimes(proc[..]), Queue()) by {
        EnqueuedWeight(h, proc[..], q, p);
      }
      if minVRuntime == NULL || proc[minVRuntime].left != NULL {
        minVRuntime := SetMinimumVRuntime(root, tree, NULL);
      }
      assert count == |Queue()| by { var _ := EnqueueCut(vr, q, p); }
    }

    /** A slot outside the tree joins the queue, behind every slot with no larger virtual runtime. */
    method InsertProcess(p: Slot)
      requires Valid() && p < NPROC && p !in Queue()
      modifies this, proc
      ensures Valid()
      ensures Queue() == Enqueue(VirtualRuntimes(old(proc[..])), old(Queue()), p)
      ensures proc[p].weightValue == WeightOf(old(proc[p].niceValue))
      ensures OnlyLinks(old(proc[..])[p := old(proc[p]).(weightValue := proc[p].weightValue)], proc[..],
                        old(Slots(tree)) + {p})
      ensures rbTreeWeight == old(rbTreeWeight) + proc[p].weightValue && period == old(period)
      ensures Drift() == old(Drift())
    {
      assert count < NPROC && p !in Slots(tree) by {
        SlotsInOrder(tree);
        RoomForOneMore(proc[..], tree, NULL, p);
      }
      hide Rep, RepCtx, Slots, Enqueue, Inserted, WeightSum, WeightOf;
      if count != NPROC {
        ghost var h := proc[..];
        InsertedSlots(VirtualRuntimes(h), tree, p);
        PutInTree(p);
        ChildlessInserted(h[p := h[p].(weightValue := proc[p].weightValue)], proc[..], Slots(old(tree)), p);
      }
    }

    // -------------------------------------------------------------- removal

    /** A red sibling turns black and is rotated above the parent, which turns red. */
    method LiftRedSibling(parent: Slot, sibling: Slot, ghost ctx: Ctx, ghost t: Tree)
      requires Linked(ctx, t) && ctx.InLeft? && IsRed(ctx.right) && parent == ctx.slot && sibling == ctx.right.slot
      requires ctx.right.left.Node?
      modifies this`root, proc
      ensures Linked(BlackSibling(ctx), t)
      ensures OnlyLinks(old(proc[..]), proc[..], CtxSlots(ctx) + Slots(t))
      ensures CtxSlots(BlackSibling(ctx)) == CtxSlots(ctx)
    {
      ghost var sib := ctx.right;
      ghost var sibCtx := InRight(ctx.color, t, ctx.slot, ctx.up);
      Zoom(proc[..], root, ctx, t);
      Zoom(proc[..], root, sibCtx, sib);
      Paint(sibling, Black, sibCtx, sib);
      Zoom(proc[..], root, sibCtx, Blacken(sib));
      ghost var e := Node(ctx.color, t, ctx.slot, Blacken(sib));
      Paint(parent, Red, ctx.up, e);
      RotateLeftFocus(parent, ctx.up, e.(color := Red));
      ghost var c := BlackSibling(ctx);
      Zoom(proc[..], root, c.up, Node(Red, t, ctx.slot, sib.left));
      Zoom(proc[..], root, c, t);
    }

    /** A black sibling without red children turns red; the missing black node is now missing one level up. */
    method PushUp(sibling: Slot, ghost ctx: Ctx, ghost t: Tree)
      requires Linked(ctx, t) && ctx.InLeft? && ctx.right.Node? && sibling == ctx.right.slot
      modifies proc
      ensures Linked(ctx.up, Node(ctx.color, t, ctx.slot, ctx.right.(color := Red)))
      ensures OnlyLinks(old(proc[..]), proc[..], CtxSlots(ctx) + Slots(t))
      ensures CtxSlots(ctx.up) + Slots(Node(ctx.color, t, ctx.slot,
                                            ctx.right.(color := Red))) == CtxSlots(ctx) + Slots(t)
    {
      ghost var sibCtx := InRight(ctx.color, t, ctx.slot, ctx.up);
      Zoom(proc[..], root, ctx, t);
      Zoom(proc[..], root, sibCtx, ctx.right);
      Paint(sibling, Red, sibCtx, ctx.right);
      Zoom(proc[..], root, sibCtx, ctx.right.(color := Red));
    }

    /** A black sibling with only an inner red child: the two exchange colours. */
    method PaintNephew(sibling: Slot, ghost ctx: Ctx, ghost t: Tree)
      requires Linked(ctx, t) && ctx.InLeft? && ctx.right.Node? && sibling == ctx.right.slot
      requires ctx.right.color.Black? && IsRed(ctx.right.left)
      modifies proc
      ensures var s := ctx.right;
              Linked(InRight(ctx.color, t, ctx.slot, ctx.up), Node(Red, Blacken(s.left), s.slot, s.right))
      ensures OnlyLinks(old(proc[..]), proc[..], CtxSlots(ctx) + Slots(t))
    {
      SiblingLinks(proc[..], root, ctx, t);
      ghost var sib := ctx.right;
      ghost var sibCtx := InRight(ctx.color, t, ctx.slot, ctx.up);
      ghost var nephewCtx := InLeft(Black, sibCtx, sib.slot, sib.right);
      Zoom(proc[..], root, ctx, t);
      Zoom(proc[..], root, sibCtx, sib);
      Zoom(proc[..], root, nephewCtx, sib.left);
      var nephew := proc[sibling].left;
      if nephew != NULL {
        Paint(nephew, Black, nephewCtx, sib.left);
      }
      Zoom(proc[..], root, nephewCtx, Blacken(sib.left));
      Paint(sibling, Red, sibCtx, Node(Black, Blacken(sib.left), sib.slot, sib.right));
    }

    /** It is then rotated right, so that the red child is outside. */
    method RotateNephew(sibling: Slot, ghost ctx: Ctx, ghost t: Tree)
      requires Linked(ctx, t) && ctx.InLeft? && ctx.right.Node? && sibling == ctx.right.slot
      requires ctx.right.color.Black? && IsRed(ctx.right.left) && !IsRed(ctx.right.right)
      modifies this`root, proc
      ensures Linked(ctx.(right := OuterNephew(ctx.right)), t)
      ensures OnlyLinks(old(proc[..]), proc[..], CtxSlots(ctx) + Slots(t))
      ensures CtxSlots(ctx.(right := OuterNephew(ctx.right))) == CtxSlots(ctx)
    {
      ghost var sib := ctx.right;
      ghost var sibCtx := InRight(ctx.color, t, ctx.slot, ctx.up);
      ghost var sib' := Node(Red, Blacken(sib.left), sib.slot, sib.right);
      PaintNephew(sibling, ctx, t);
      NephewSlots(ctx, t);
      RotateRightFocus(sibling, sibCtx, sib');
      Zoom(proc[..], root, sibCtx, OuterNephew(sib));
      Zoom(proc[..], root, ctx.(right := OuterNephew(sib)), t);
    }

    /** The sibling takes the parent's place and colour; the parent and the outer nephew turn black. */
    method Borrow(parent: Slot, sibling: Slot, ghost ctx: Ctx, ghost t: Tree)
      requires Linked(ctx, t) && ctx.InLeft? && ctx.right.Node? && parent == ctx.slot && sibling == ctx.right.slot
      requires ctx.right.right.Node?
      modifies this`root, proc
      ensures var s := ctx.right;
              Linked(ctx.up, Node(ctx.color, Node(Black, t, ctx.slot, s.left), s.slot, Blacken(s.right)))
      ensures OnlyLinks(old(proc[..]), proc[..], CtxSlots(ctx) + Slots(t))
    {
      hide Rep, RepCtx;
      SiblingLinks(proc[..], root, ctx, t);
      ghost var sib := ctx.right;
      ghost var sibCtx := InRight(ctx.color, t, ctx.slot, ctx.up);
      Zoom(proc[..], root, ctx, t);
      Zoom(proc[..], root, sibCtx, sib);
      Paint(sibling, proc[parent].coloring, sibCtx, sib);
      ghost var s1 := sib.(color := ctx.color);
      Zoom(proc[..], root, sibCtx, s1);
      Paint(parent, Black, ctx.up, Node(ctx.color, t, ctx.slot, s1));
      ghost var sibCtx' := InRight(Black, t, ctx.slot, ctx.up);
      ghost var nephewCtx := InRight(ctx.color, s1.left, s1.slot, sibCtx');
      Zoom(proc[..], root, sibCtx', s1);
      Zoom(proc[..], root, nephewCtx, sib.right);
      Paint(proc[sibling].right, Black, nephewCtx, sib.right);
      Zoom(proc[..], root, nephewCtx, Blacken(sib.right));
      ghost var s2 := Node(ctx.color, s1.left, s1.slot, Blacken(sib.right));
      Zoom(proc[..], root, sibCtx', s2);
      RotateLeftFocus(parent, ctx.up, Node(Black, t, ctx.slot, s2));
    }

    /** The closing rotations: afterwards `process` is the root and nothing is missing. */
    method BorrowFromSibling(parent: Slot, ghost ctx: Ctx, ghost t: Tree)
      requires Linked(ctx, t) && Deficient(ctx, t) && ctx.InLeft? && !IsRed(t) && parent == ctx.slot
      requires ctx.right.Node? && ctx.right.color.Black? && (IsRed(ctx.right.left) || IsRed(ctx.right.right))
      modifies this`root, proc
      ensures Linked(Top, Rebalance(ctx, t))
      ensures OnlyLinks(old(proc[..]), proc[..], CtxSlots(ctx) + Slots(t))
    {
      SiblingLinks(proc[..], root, ctx, t);
      var sibling := proc[parent].right;
      var outer := proc[sibling].right;
      if outer == NULL || proc[outer].coloring == Black {
        RotateNephew(sibling, ctx, t);
        ghost var c := ctx.(right := OuterNephew(ctx.right));
        SiblingLinks(proc[..], root, c, t);
        sibling := proc[parent].right;
        Borrow(parent, sibling, c, t);
      } else {
        Borrow(parent, sibling, ctx, t);
      }
      RebalanceBorrows(ctx, t);
      ghost var s := OuterNephew(ctx.right);
      AtPlug(proc[..], root, ctx.up, Node(ctx.color, Node(Black, t, ctx.slot, s.left), s.slot, Blacken(s.right)));
    }

    /** One turn of the fix-up loop once the sibling is black. */
    method FixUpBlack(parent: Slot, ghost ctx: Ctx, ghost t: Tree)
      returns (parent': Ptr, process': Ptr, ghost ctx': Ctx, ghost t': Tree)
      requires Linked(ctx, t) && Deficient(ctx, t) && ctx.InLeft? && !IsRed(t) && parent == ctx.slot
      requires ctx.right.Node? && ctx.right.color.Black?
      modifies this`root, proc
      ensures Linked(ctx', t') && Deficient(ctx', t') && process' == Root(t') && parent' == ParentOf(ctx')
      ensures Rebalance(ctx', t') == Rebalance(ctx, t)
      ensures OnlyLinks(old(proc[..]), proc[..], CtxSlots(ctx) + Slots(t))
      ensures CtxSlots(ctx') + Slots(t') == CtxSlots(ctx) + Slots(t)
      ensures Depth(ctx') < Depth(ctx) && (ctx.color.Red? ==> IsRed(t') || ctx'.Top?)
    {
      SiblingLinks(proc[..], root, ctx, t);
      var sibling := proc[parent].right;
      var inner, outer := proc[sibling].left, proc[sibling].right;
      if (inner == NULL || proc[inner].coloring == Black) && (outer == NULL || proc[outer].coloring == Black) {
        PushUp(sibling, ctx, t);
        process', parent' := parent, proc[parent].parentP;
        ctx', t' := ctx.up, Node(ctx.color, t, ctx.slot, ctx.right.(color := Red));
        RebalancePushes(ctx, t);
      } else {
        BorrowFromSibling(parent, ctx, t);
        process', parent' := root, NULL;
        ctx', t' := Top, Rebalance(ctx, t);
        RebalanceDone(ctx, t);
      }
    }

    /** Case 2 of retrievingCases: `process` lacks a black node and hangs from `parentProc`. */
    method RetrievingCase2(parentProc: Ptr, process: Ptr, ghost ctx: Ctx, ghost t: Tree)
      requires Linked(ctx, t) && Deficient(ctx, t) && process == Root(t) && parentProc == ParentOf(ctx)
      modifies this`root, proc
      ensures Linked(Top, Rebalance(ctx, t))
      ensures OnlyLinks(old(proc[..]), proc[..], CtxSlots(ctx) + Slots(t))
    {
      var p, n := parentProc, process;
      ghost var c, u := ctx, t;
      FocusIsRoot(proc[..], root, c, u);
      while n != root && (n == NULL || proc[n].coloring == Black)
        invariant Linked(c, u) && Deficient(c, u) && n == Root(u) && p == ParentOf(c)
        invariant n == root <==> c.Top?
        invariant Rebalance(c, u) == Rebalance(ctx, t)
        invariant OnlyLinks(old(proc[..]), proc[..], CtxSlots(ctx) + Slots(t))
        invariant CtxSlots(c) + Slots(u) == CtxSlots(ctx) + Slots(t)
        decreases if IsRed(u) then 0 else Depth(c) + 1
      {
        p, n, c, u := FixUpTurn(p, n, c, u);
        FocusIsRoot(proc[..], root, c, u);
      }
      if n != NULL {
        Paint(n, Black, c, u);
      }
      AtPlug(proc[..], root, c, Blacken(u));
    }

    /** The loop body of case 2. */
    method FixUpTurn(parent: Slot, process: Ptr, ghost ctx: Ctx, ghost t: Tree)
      returns (parent': Ptr, process': Ptr, ghost ctx': Ctx, ghost t': Tree)
      requires Linked(ctx, t) && Deficient(ctx, t) && !ctx.Top? && !IsRed(t)
      requires process == Root(t) && parent == ctx.slot
      modifies this`root, proc
      ensures Linked(ctx', t') && Deficient(ctx', t') && process' == Root(t') && parent' == ParentOf(ctx')
      ensures Rebalance(ctx', t') == Rebalance(ctx, t)
      ensures OnlyLinks(old(proc[..]), proc[..], CtxSlots(ctx) + Slots(t))
      ensures CtxSlots(ctx') + Slots(t') == CtxSlots(ctx) + Slots(t)
      ensures IsRed(t') || Depth(ctx') < Depth(ctx)
    {
      hide Rep, RepCtx;
      BlackSiblingDeficient(ctx, t);
      RebalanceLifts(ctx, t);
      SiblingLinks(proc[..], root, ctx, t);
      assert process == proc[parent].left;
      var sibling := proc[parent].right;
      if sibling != NULL && proc[sibling].coloring == Red {
        LiftRedSibling(parent, sibling, ctx, t);
        parent', process', ctx', t' := FixUpBlack(parent, BlackSibling(ctx), t);
      } else {
        parent', process', ctx', t' := FixUpBlack(parent, ctx, t);
      }
    }

    /** Case 1 of retrievingCases: the leftmost slot `m` is replaced by its right child. */
    method RetrievingCase1(parentProc: Ptr, m: Slot, ghost ctx: Ctx, ghost c: Color, ghost r: Tree)
      requires Linked(ctx, Node(c, Leaf, m, r)) && LeftSpine(ctx) && parentProc == ParentOf(ctx)
      requires RedBlack(Plug(ctx, Node(c, Leaf, m, r))) && RedBlack(Plug(ctx, Node(c, Leaf, 0, r)))
      modifies this`root, proc
      ensures Linked(Top, Extract(ctx, c, r))
      ensures proc[m].left == NULL && proc[m].right == NULL && proc[m].parentP == NULL
      ensures OnlyLinks(old(proc[..]), proc[..], CtxSlots(ctx) + {m} + Slots(r))
    {
      ghost var t := Node(c, Leaf, m, r);
      ghost var h := proc[..];
      assert Rep(h, r, m);
      FocusIsRoot(h, root, ctx, t);
      ExtractCorrect(ctx, c, m, r);
      assert CtxSlots(ctx) + {m} + Slots(r) == CtxSlots(ctx) + Slots(t);
      if m == root {
        UnlinkRoot(m, c, r);
      } else {
        UnlinkInner(parentProc, m, ctx, c, r);
      }
      ghost var h' := proc[..];
      proc[m] := proc[m].(parentP := NULL, left := NULL, right := NULL);
      ExtractSlots(ctx, c, m, r);
      AtFrame(h', proc[..], root, Top, Extract(ctx, c, r));
      IsolateOnly(h', proc[..], m, CtxSlots(ctx) + {m} + Slots(r));
      OnlyLinksJoin(h, h', proc[..], CtxSlots(ctx) + {m} + Slots(r));
    }

    /** The branch of case 1 for the root. */
    method UnlinkRoot(m: Slot, ghost c: Color, ghost r: Tree)
      requires Linked(Top, Node(c, Leaf, m, r))
      modifies this`root, proc
      ensures Linked(Top, Blacken(r))
      ensures OnlyLinks(old(proc[..]), proc[..], {m} + Slots(r))
    {
      assert Rep(proc[..], r, m);
      var child := proc[m].right;
      root := child;
      if child != NULL {
        proc[child] := proc[child].(parentP := NULL, coloring := Black);
      }
      UnlinkRootAt(old(proc[..]), proc[..], old(root), c, m, r);
    }

    /** The branches of case 1 for a slot that is not the root. */
    method UnlinkInner(parentProc: Slot, m: Slot, ghost ctx: Ctx, ghost c: Color, ghost r: Tree)
      requires Linked(ctx, Node(c, Leaf, m, r)) && ctx.InLeft? && LeftSpine(ctx) && parentProc == ctx.slot
      requires RedBlack(Plug(ctx, Node(c, Leaf, m, r))) && RedBlack(Plug(ctx, Node(c, Leaf, 0, r)))
      modifies this`root, proc
      ensures Linked(Top, Extract(ctx, c, r))
      ensures OnlyLinks(old(proc[..]), proc[..], CtxSlots(ctx) + {m} + Slots(r))
    {
      ghost var h := proc[..];
      assert Rep(h, r, m);
      ExtractCorrect(ctx, c, m, r);
      var child := proc[m].right;
      if child != NULL && proc[m].coloring != proc[child].coloring {
        proc[child] := proc[child].(parentP := parentProc);
        proc[parentProc] := proc[parentProc].(left := child);
        UnlinkAt(h, proc[..], root, ctx, c, m, r);
        Paint(child, Black, ctx, r);
        AtPlug(proc[..], root, ctx, Blacken(r));
      } else if proc[m].coloring == Red {
        proc[parentProc] := proc[parentProc].(left := child);
        UnlinkAt(h, proc[..], root, ctx, c, m, r);
        AtPlug(proc[..], root, ctx, r);
      } else {
        // A black leftmost slot with a child has a red one, so there is no child here to be hung from the parent.
        assert child == NULL;
        proc[parentProc] := proc[parentProc].(left := child);
        UnlinkAt(h, proc[..], root, ctx, c, m, r);
        RetrievingCase2(parentProc, child, ctx, r);
      }
    }

    /** The first process in the queue is one the scheduler may take. */
    ghost predicate HeadRunnable()
      reads this, proc
    {
      Queue() != [] && Queue()[0] < proc.Length && proc[Queue()[0]].state == RUNNABLE
    }

    /** The leftmost slot leaves the tree. */
    method Detach(m: Slot)
      requires TreeValid() && Queue() != [] && m == Queue()[0] && m < proc.Length
      modifies this, proc
      ensures Linked(Top, tree) && RedBlack(tree) && Queue() == old(Queue())[1..]
      ensures Sorted(VirtualRuntimes(proc[..]), Queue())
      ensures WeightSum(proc[..], Queue()) == old(WeightSum(proc[..], Queue()) - proc[m].weightValue)
      ensures proc[m].left == NULL && proc[m].right == NULL && proc[m].parentP == NULL && m !in Slots(tree)
      ensures OnlyLinks(old(proc[..]), proc[..], old(Slots(tree)))
      ensures rbTreeWeight == old(rbTreeWeight) && period == old(period) && count == old(count)
    {
      hide Rep, RepCtx, RedBlack, Sorted, WeightSum;
      ghost var h, q := proc[..], Queue();
      LeftmostIsFirst(Top, tree);
      ghost var ctx, t := LeftPath(Top, tree), LeftNode(tree);
      AtPlug(proc[..], root, ctx, t);
      ParentSide(proc[..], root, ctx, t);
      assert t == Node(t.color, Leaf, m, t.right);
      ExtractCorrect(ctx, t.color, m, t.right);
      ExtractSlots(ctx, t.color, m, t.right);
      PlugUnique(ctx, t);
      RetrievingCase1(proc[m].parentP, m, ctx, t.color, t.right);
      tree := Extract(ctx, t.color, t.right);
      assert Queue() == q[1..];
      DequeuedWeight(h, proc[..], q);
    }

    /** The leftmost slot leaves the queue; its weight is still in the running total. */
    method RemoveFirst(m: Slot)
      requires TreeValid() && Queue() != [] && m == Queue()[0] && m < proc.Length
      modifies this, proc
      ensures TreeValid() && Queue() == old(Queue())[1..] && m !in Slots(tree)
      ensures Drift() == old(Drift()) + proc[m].weightValue
      ensures proc[m].left == NULL && proc[m].right == NULL && proc[m].parentP == NULL
      ensures OnlyLinks(old(proc[..]), proc[..], old(Slots(tree)))
      ensures rbTreeWeight == old(rbTreeWeight) && period == old(period)
    {
      Detach(m);
      count := count - 1;
      minVRuntime := SetMinimumVRuntime(root, tree, NULL);
    }

    /** The time slice of a process that has just left the queue. */
    method GiveSlice(m: Slot)
      requires TreeValid() && m < proc.Length && m !in Slots(tree)
      modifies this, proc
      ensures TreeValid() && Queue() == old(Queue()) && tree == old(tree)
      ensures Drift() == old(Drift()) - proc[m].weightValue
      ensures proc[..] == old(proc[..])[m := old(proc[m]).(
                maximumExecutiontime := MachineDiv(period * proc[m].weightValue, old(rbTreeWeight)))]
      ensures rbTreeWeight == old(rbTreeWeight) - proc[m].weightValue && period == old(period)
    {
      ghost var h := proc[..];
      proc[m] := proc[m].(maximumExecutiontime := MachineDiv(period * proc[m].weightValue, rbTreeWeight));
      rbTreeWeight := rbTreeWeight - proc[m].weightValue;
      AtFrame(h, proc[..], root, Top, tree);
      WeightSumFrame(h, proc[..], Queue());
      assert VirtualRuntimes(proc[..]) == VirtualRuntimes(h);
    }

    /** The leftmost slot leaves the queue with its slice. */
    method TakeFirst(m: Slot)
      requires Valid() && Queue() != [] && m == Queue()[0] && m < proc.Length
      modifies this, proc
      ensures Valid() && Drift() == old(Drift()) && Queue() == old(Queue())[1..] && period == old(period)
      ensures rbTreeWeight == old(rbTreeWeight) - old(proc[m].weightValue)
      ensures proc[m].left == NULL && proc[m].right == NULL && proc[m].parentP == NULL
      ensures proc[m].maximumExecutiontime == MachineDiv(period * proc[m].weightValue, old(rbTreeWeight))
      ensures OnlyLinks(old(proc[..])[m := old(proc[m]).(maximumExecutiontime := proc[m].maximumExecutiontime)],
                        proc[..], old(Slots(tree)))
    {
      hide Rep, RepCtx, MachineDiv, Slots, WeightSum;
      ghost var h, slots := proc[..], Slots(tree);
      SlotsInOrder(tree);
      RemoveFirst(m);
      ghost var h1 := proc[..];
      GiveSlice(m);
      SlotsInOrder(tree);
      SliceOnly(h, h1, proc[..], m, slots);
      forall s: Slot | s in slots ensures s in Slots(tree) || s == m {
        assert s in old(Queue());
      }
      ChildlessRemoved(h[m := h[m].(maximumExecutiontime := proc[m].maximumExecutiontime)], proc[..], slots,
                       Slots(tree), m);
    }

    /** Take the process with the least virtual runtime out of the tree and give it its time slice. */
    method RetrieveProcess() returns (found: Ptr)
      requires Valid()
      modifies this, proc
      ensures Valid() && Drift() == old(Drift())
      ensures period == if old(Queue()) == [] then old(period) else PeriodFor(|old(Queue())|, old(period))
      ensures !old(HeadRunnable()) ==>
                found == NULL && Queue() == old(Queue()) && proc[..] == old(proc[..]) &&
                rbTreeWeight == old(rbTreeWeight)
      ensures old(HeadRunnable()) ==>
                found == old(Queue()[0]) && Queue() == old(Queue())[1..] &&
                rbTreeWeight == old(rbTreeWeight - proc[Queue()[0]].weightValue) &&
                proc[found].left == NULL && proc[found].right == NULL && proc[found].parentP == NULL &&
                proc[found].maximumExecutiontime == MachineDiv(period * proc[found].weightValue, old(rbTreeWeight)) &&
                OnlyLinks(old(proc[..])[found := old(proc[Queue()[0]]).(
                            maximumExecutiontime := proc[found].maximumExecutiontime)],
                          proc[..], old(Slots(tree)))
    {
      if count != 0 {
        FirstHasNoLeft(proc[..], tree, NULL);
        if count > LATENCY / MIN_GRANULARITY {
          period := count * MIN_GRANULARITY;
        }
        found := minVRuntime;
        if proc[found].state != RUNNABLE {
          return NULL;
        }
        TakeFirst(found);
      } else {
        found := NULL;
      }
    }

    /** chprio, for the slot with the given pid: the running total is not told, so it drifts by the change of a queued
        weight. */
    method Chprio(p: Slot, priority: int)
      requires Valid() && p < NPROC
      modifies proc
      ensures Valid() && proc[..] == old(proc[..])[p := old(proc[p]).(niceValue := priority,
                                                                      weightValue := WeightOf(priority))]
      ensures Drift() == old(Drift()) - if p in Queue() then proc[p].weightValue - old(proc[p].weightValue) else 0
    {
      ghost var h := proc[..];
      var w := CalculateWeight(priority);
      proc[p] := proc[p].(niceValue := priority, weightValue := w);
      AtFrame(h, proc[..], root, Top, tree);
      assert VirtualRuntimes(proc[..]) == VirtualRuntimes(h);
      SlotsInOrder(tree);
      ReweighedSum(h, proc[..], Queue(), p);
    }

    /** A change of state and runtimes of a slot outside the tree. */
    method Update(p: Slot, state: ProcState, virtualRuntime: int, currentRuntime: int)
      requires Valid() && p < NPROC && p !in Queue()
      modifies proc
      ensures Valid() && Drift() == old(Drift())
      ensures proc[..] == old(proc[..])[p := old(proc[p]).(
                state := state, virtualRuntime := virtualRuntime, currentRuntime := currentRuntime)]
    {
      ghost var h := proc[..];
      proc[p] := proc[p].(state := state, virtualRuntime := virtualRuntime, currentRuntime := currentRuntime);
      AtFrame(h, proc[..], root, Top, tree);
      SortedOutside(h, proc[..], Queue(), p);
      WeightSumFrame(h, proc[..], Queue());
    }
  }
}
