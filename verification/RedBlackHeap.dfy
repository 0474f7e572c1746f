/** The pointer code of red-black insertion (libs/algo.c:34-235): nodes are the records of an
    array, a pointer is an index into it and NULL is -1.  Every routine is written as the source
    has it, the assignment in the test of rotate_left (line 88) included, and is compared with
    the values of module RedBlack. */
module RedBlackHeap {
  import opened RedBlack

  const Null: int := -1

  datatype Node = Node(color: Color, key: int, parent: int, left: int, right: int)

  type Mem = seq<Node>

  // ---------------------------------------------------------------- what the memory represents

  function Root(t: Tree): int { if t.E? then Null else t.id }

  function CtxId(c: Ctx): int { if c.Top? then Null else c.id }

  /** The memory holds t below the parent p, all parent pointers included. */
  predicate IsTree(m: Mem, t: Tree, p: int) {
    t.T? ==>
      && 0 <= t.id < |m|
      && m[t.id] == Node(t.color, t.key, p, Root(t.left), Root(t.right))
      && IsTree(m, t.left, t.id)
      && IsTree(m, t.right, t.id)
  }

  predicate IsCtx(m: Mem, c: Ctx, hole: int)
    decreases c
  {
    !c.Top? ==>
      && 0 <= c.id < |m|
      && IsCtx(m, c.up, c.id)
      && (if c.L? then
            m[c.id] == Node(c.color, c.key, CtxId(c.up), hole, Root(c.right)) && IsTree(m, c.right, c.id)
          else
            m[c.id] == Node(c.color, c.key, CtxId(c.up), Root(c.left), hole) && IsTree(m, c.left, c.id))
  }

  function Ids(t: Tree): set<int> { if t.E? then {} else Ids(t.left) + {t.id} + Ids(t.right) }

  function Side(c: Ctx): Tree
    requires !c.Top?
  {
    if c.L? then c.right else c.left
  }

  function CtxIds(c: Ctx): set<int>
    decreases c
  {
    if c.Top? then {} else CtxIds(c.up) + {c.id} + Ids(Side(c))
  }

  /** No node occurs twice. */
  predicate Distinct(t: Tree) {
    t.T? ==>
      && t.id !in Ids(t.left) && t.id !in Ids(t.right) && Ids(t.left) !! Ids(t.right)
      && Distinct(t.left) && Distinct(t.right)
  }

  predicate CtxDistinct(c: Ctx)
    decreases c
  {
    !c.Top? ==>
      && c.id !in CtxIds(c.up) && c.id !in Ids(Side(c)) && CtxIds(c.up) !! Ids(Side(c))
      && Distinct(Side(c)) && CtxDistinct(c.up)
  }

  predicate Apart(t: Tree, c: Ctx) {
    Distinct(t) && CtxDistinct(c) && Ids(t) !! CtxIds(c)
  }

  predicate Holds(m: Mem, t: Tree, c: Ctx) {
    IsTree(m, t, CtxId(c)) && IsCtx(m, c, Root(t))
  }

  /** The memory holds t in its context c, every node once. */
  predicate Focus(m: Mem, t: Tree, c: Ctx) {
    Holds(m, t, c) && Apart(t, c)
  }

  // ---------------------------------------------------------------- frames

  predicate SameOn(m: Mem, m': Mem, s: set<int>) {
    |m| == |m'| && forall i :: i in s && 0 <= i < |m| ==> m'[i] == m[i]
  }

  lemma {:induction false} TreeFrame(m: Mem, m': Mem, t: Tree, p: int)
    requires IsTree(m, t, p) && SameOn(m, m', Ids(t))
    ensures IsTree(m', t, p)
  {
    if t.T? {
      TreeFrame(m, m', t.left, t.id);
      TreeFrame(m, m', t.right, t.id);
    }
  }

  lemma {:induction false} CtxFrame(m: Mem, m': Mem, c: Ctx, hole: int)
    requires IsCtx(m, c, hole) && SameOn(m, m', CtxIds(c))
    ensures IsCtx(m', c, hole)
    decreases c
  {
    if !c.Top? {
      CtxFrame(m, m', c.up, c.id);
      TreeFrame(m, m', Side(c), c.id);
    }
  }

  /** The nearest node around a focus with the focus plugged in. */
  function Outer(t: Tree, c: Ctx): Tree
    requires !c.Top?
  {
    if c.L? then T(c.color, t, c.id, c.key, c.right) else T(c.color, c.left, c.id, c.key, t)
  }

  lemma ZoomOut(m: Mem, t: Tree, c: Ctx)
    requires !c.Top? && Focus(m, t, c)
    ensures Focus(m, Outer(t, c), c.up)
  {
  }

  lemma {:induction false} PlugHolds(m: Mem, t: Tree, c: Ctx)
    requires Holds(m, t, c)
    ensures IsTree(m, Plug(c, t), Null)
    decreases c
  {
    if !c.Top? { PlugHolds(m, Outer(t, c), c.up); }
  }

  lemma {:induction false} PlugDistinct(t: Tree, c: Ctx)
    requires Apart(t, c)
    ensures Distinct(Plug(c, t)) && Ids(Plug(c, t)) == Ids(t) + CtxIds(c)
    decreases c
  {
    if !c.Top? { PlugDistinct(Outer(t, c), c.up); }
  }

  // ---------------------------------------------------------------- rotations

  /** Nothing changes outside a set of nodes. */
  predicate OnlyIn(m: Mem, m': Mem, s: set<int>) {
    |m| == |m'| && forall i :: 0 <= i < |m| && i !in s ==> m'[i] == m[i]
  }

  /** The subtree moves below another parent. */
  lemma Reparent(m: Mem, m': Mem, t: Tree, p: int, p': int)
    requires IsTree(m, t, p) && Distinct(t) && |m| == |m'|
    requires t.T? ==> m'[t.id] == m[t.id].(parent := p')
    requires SameOn(m, m', Ids(t) - {Root(t)})
    ensures IsTree(m', t, p')
  {
    if t.T? {
      TreeFrame(m, m', t.left, t.id);
      TreeFrame(m, m', t.right, t.id);
    }
  }

  /** The node record of a context with another node in the hole. */
  function Hole(c: Ctx, hole: int): Node
    requires !c.Top?
  {
    if c.L? then Node(c.color, c.key, CtxId(c.up), hole, Root(c.right))
    else Node(c.color, c.key, CtxId(c.up), Root(c.left), hole)
  }

  lemma Refill(m: Mem, m': Mem, c: Ctx, hole: int, hole': int)
    requires IsCtx(m, c, hole) && CtxDistinct(c) && |m| == |m'|
    requires !c.Top? ==> m'[c.id] == Hole(c, hole')
    requires SameOn(m, m', CtxIds(c) - {CtxId(c)})
    ensures IsCtx(m', c, hole')
  {
    if !c.Top? {
      CtxFrame(m, m', c.up, c.id);
      TreeFrame(m, m', Side(c), c.id);
    }
  }

  function RotL(t: Tree): Tree
    requires t.T? && t.right.T?
  {
    var x := t.right;
    T(x.color, T(t.color, t.left, t.id, t.key, x.left), x.id, x.key, x.right)
  }

  function RotR(t: Tree): Tree
    requires t.T? && t.left.T?
  {
    var x := t.left;
    T(x.color, x.left, x.id, x.key, T(t.color, x.right, t.id, t.key, t.right))
  }

  lemma RotLApart(t: Tree, c: Ctx)
    requires t.T? && t.right.T? && Apart(t, c)
    ensures Apart(RotL(t), c) && Ids(RotL(t)) == Ids(t)
  {
    var x, n := t.right, RotL(t).left;
    assert Distinct(x) && Ids(x) == Ids(x.left) + {x.id} + Ids(x.right);
    assert Ids(n) == Ids(t.left) + {t.id} + Ids(x.left);
    assert Distinct(n);
  }

  lemma RotRApart(t: Tree, c: Ctx)
    requires t.T? && t.left.T? && Apart(t, c)
    ensures Apart(RotR(t), c) && Ids(RotR(t)) == Ids(t)
  {
    var x, n := t.left, RotR(t).right;
    assert Distinct(x) && Ids(x) == Ids(x.left) + {x.id} + Ids(x.right);
    assert Ids(n) == Ids(x.right) + {t.id} + Ids(t.right);
    assert Distinct(n);
  }

  /** What a left rotation leaves in the two nodes and in the root of the subtree between them. */
  predicate TurnedLeft(m: Mem, m': Mem, t: Tree, p: int)
    requires t.T? && t.right.T? && IsTree(m, t, p) && |m| == |m'|
  {
    assert IsTree(m, t.right, t.id) && IsTree(m, t.right.left, t.right.id);
    && m'[t.id] == Node(t.color, t.key, t.right.id, Root(t.left), Root(t.right.left))
    && m'[t.right.id] == Node(t.right.color, t.right.key, p, t.id, Root(t.right.right))
    && (t.right.left.T? ==> m'[t.right.left.id] == m[t.right.left.id].(parent := t.id))
    && SameOn(m, m', Ids(t) - {t.id, t.right.id, Root(t.right.left)})
  }

  lemma TurnLeft(m: Mem, m': Mem, t: Tree, p: int)
    requires t.T? && t.right.T? && IsTree(m, t, p) && Distinct(t) && |m| == |m'| && TurnedLeft(m, m', t, p)
    ensures IsTree(m', RotL(t), p)
  {
    var x := t.right;
    TreeFrame(m, m', t.left, t.id);
    Reparent(m, m', x.left, x.id, t.id);
    TreeFrame(m, m', x.right, x.id);
  }

  predicate TurnedRight(m: Mem, m': Mem, t: Tree, p: int)
    requires t.T? && t.left.T? && IsTree(m, t, p) && |m| == |m'|
  {
    assert IsTree(m, t.left, t.id) && IsTree(m, t.left.right, t.left.id);
    && m'[t.id] == Node(t.color, t.key, t.left.id, Root(t.left.right), Root(t.right))
    && m'[t.left.id] == Node(t.left.color, t.left.key, p, Root(t.left.left), t.id)
    && (t.left.right.T? ==> m'[t.left.right.id] == m[t.left.right.id].(parent := t.id))
    && SameOn(m, m', Ids(t) - {t.id, t.left.id, Root(t.left.right)})
  }

  lemma TurnRight(m: Mem, m': Mem, t: Tree, p: int)
    requires t.T? && t.left.T? && IsTree(m, t, p) && Distinct(t) && |m| == |m'| && TurnedRight(m, m', t, p)
    ensures IsTree(m', RotR(t), p)
  {
    var x := t.left;
    TreeFrame(m, m', t.right, t.id);
    Reparent(m, m', x.right, x.id, t.id);
    TreeFrame(m, m', x.left, x.id);
  }

  /** Line 88 as written: below a right child's parent the rotated subtree is hung up on the
      left, and the right pointer still leads to the old top, now inside that subtree. */
  predicate Misplaced(m: Mem, t: Tree, c: Ctx, oldTop: int)
    requires c.R?
  {
    && 0 <= c.id < |m|
    && m[c.id] == Node(c.color, c.key, CtxId(c.up), Root(t), oldTop)
    && IsCtx(m, c.up, c.id)
    && 0 <= oldTop < |m| && m[oldTop].parent == Root(t)
  }

  /** n, the child x that goes up, the subtree b between them and the parent p are different nodes. */
  predicate Four(m: Mem, n: int, x: int, b: int, p: int) {
    && 0 <= n < |m| && 0 <= x < |m| && (b == Null || 0 <= b < |m|) && (p == Null || 0 <= p < |m|)
    && n != x && n != b && n != p && x != b && x != p && (b == p ==> b == Null)
  }

  /** The memory after rotate_left(n), node by node. */
  function LeftTurn(m: Mem, n: int): (m': Mem)
    requires 0 <= n < |m| && 0 <= m[n].right < |m|
  {
    var x, p := m[n].right, m[n].parent;
    var b := m[x].left;
    seq(|m|, i requires 0 <= i < |m| =>
      if i == n then m[i].(right := b, parent := x)
      else if i == x then m[i].(left := n, parent := p)
      else if i == b then m[i].(parent := n)
      else if i == p then m[i].(left := x)
      else m[i])
  }

  function RightTurn(m: Mem, n: int): (m': Mem)
    requires 0 <= n < |m| && 0 <= m[n].left < |m|
  {
    var x, p := m[n].left, m[n].parent;
    var b := m[x].right;
    seq(|m|, i requires 0 <= i < |m| =>
      if i == n then m[i].(left := b, parent := x)
      else if i == x then m[i].(right := n, parent := p)
      else if i == b then m[i].(parent := n)
      else if i == p then (if m[i].left == n then m[i].(left := x) else m[i].(right := x))
      else m[i])
  }

  method RotateLeft(a: array<Node>, n: int)
    requires 0 <= n < a.Length && 0 <= a[n].right < a.Length
    requires Four(a[..], n, a[n].right, a[a[n].right].left, a[n].parent)
    modifies a
    ensures a[..] == LeftTurn(old(a[..]), n)
  {
    var x := a[n].right;
    var p := a[n].parent;
    a[n] := a[n].(right := a[x].left);
    a[x] := a[x].(left := n);
    a[n] := a[n].(parent := x);
    if a[n].right != Null {
      var b := a[n].right;
      a[b] := a[b].(parent := n);
    }
    if p != Null {
      a[p] := a[p].(left := n);
      if a[p].left != Null {
        a[p] := a[p].(left := x);
      } else {
        // the value assigned in the test is a node, so the right link is never set
        assert false;
      }
    }
    a[x] := a[x].(parent := p);
  }

  method RotateRight(a: array<Node>, n: int)
    requires 0 <= n < a.Length && 0 <= a[n].left < a.Length
    requires Four(a[..], n, a[n].left, a[a[n].left].right, a[n].parent)
    modifies a
    ensures a[..] == RightTurn(old(a[..]), n)
  {
    var x := a[n].left;
    var p := a[n].parent;
    a[n] := a[n].(left := a[x].right);
    a[x] := a[x].(right := n);
    a[n] := a[n].(parent := x);
    if a[n].left != Null {
      var b := a[n].left;
      a[b] := a[b].(parent := n);
    }
    if p != Null {
      if a[p].left == n {
        a[p] := a[p].(left := x);
      } else {
        a[p] := a[p].(right := x);
      }
    }
    a[x] := a[x].(parent := p);
  }

  lemma RootIn(t: Tree)
    ensures t.T? ==> t.id in Ids(t)
  {
  }

  lemma CanTurnLeft(m: Mem, t: Tree, c: Ctx)
    requires Focus(m, t, c) && t.T? && t.right.T?
    ensures Four(m, t.id, t.right.id, Root(t.right.left), CtxId(c))
    ensures m[t.id].right == t.right.id && m[t.id].parent == CtxId(c) && m[t.right.id].left == Root(t.right.left)
  {
    assert IsTree(m, t.right, t.id) && IsTree(m, t.right.left, t.right.id);
    assert Distinct(t.right);
  }

  lemma CanTurnRight(m: Mem, t: Tree, c: Ctx)
    requires Focus(m, t, c) && t.T? && t.left.T?
    ensures Four(m, t.id, t.left.id, Root(t.left.right), CtxId(c))
    ensures m[t.id].left == t.left.id && m[t.id].parent == CtxId(c) && m[t.left.id].right == Root(t.left.right)
  {
    assert IsTree(m, t.left, t.id) && IsTree(m, t.left.right, t.left.id);
    assert Distinct(t.left);
  }

  /** Below a left child's parent, or at the root, rotate_left is a left rotation of the tree;
      below a right child's parent it misplaces the subtree. */
  lemma LeftTurnRotates(m: Mem, t: Tree, c: Ctx)
    requires Focus(m, t, c) && t.T? && t.right.T? && m[t.id].right == t.right.id && 0 <= t.right.id < |m|
    ensures IsTree(LeftTurn(m, t.id), RotL(t), CtxId(c)) && Apart(RotL(t), c)
    ensures !c.R? ==> IsCtx(LeftTurn(m, t.id), c, t.right.id)
    ensures c.R? ==> Misplaced(LeftTurn(m, t.id), RotL(t), c, t.id)
  {
    var m' := LeftTurn(m, t.id);
    CanTurnLeft(m, t, c);
    RotLApart(t, c);
    RootIn(t.right.left);
    assert Ids(t) == Ids(t.left) + {t.id} + Ids(t.right);
    assert Ids(t.right) == Ids(t.right.left) + {t.right.id} + Ids(t.right.right);
    assert TurnedLeft(m, m', t, CtxId(c));
    TurnLeft(m, m', t, CtxId(c));
    if c.R? {
      CtxFrame(m, m', c.up, c.id);
    } else {
      Refill(m, m', c, t.id, t.right.id);
    }
  }

  lemma RightTurnRotates(m: Mem, t: Tree, c: Ctx)
    requires Focus(m, t, c) && t.T? && t.left.T? && m[t.id].left == t.left.id && 0 <= t.left.id < |m|
    ensures Focus(RightTurn(m, t.id), RotR(t), c)
  {
    var m' := RightTurn(m, t.id);
    CanTurnRight(m, t, c);
    RotRApart(t, c);
    RootIn(t.left.right);
    assert Ids(t) == Ids(t.left) + {t.id} + Ids(t.right);
    assert Ids(t.left) == Ids(t.left.left) + {t.left.id} + Ids(t.left.right);
    assert TurnedRight(m, m', t, CtxId(c));
    TurnRight(m, m', t, CtxId(c));
    Refill(m, m', c, t.id, t.left.id);
  }

  lemma LeftTurnFrame(m: Mem, t: Tree, c: Ctx)
    requires Focus(m, t, c) && t.T? && t.right.T? && m[t.id].right == t.right.id && 0 <= t.right.id < |m|
    ensures OnlyIn(m, LeftTurn(m, t.id), Ids(t) + CtxIds(c))
  {
    CanTurnLeft(m, t, c);
    assert t.right.id in Ids(t.right) && (t.right.left.T? ==> t.right.left.id in Ids(t.right));
  }

  lemma RightTurnFrame(m: Mem, t: Tree, c: Ctx)
    requires Focus(m, t, c) && t.T? && t.left.T? && m[t.id].left == t.left.id && 0 <= t.left.id < |m|
    ensures OnlyIn(m, RightTurn(m, t.id), Ids(t) + CtxIds(c))
  {
    CanTurnRight(m, t, c);
    assert t.left.id in Ids(t.left) && (t.left.right.T? ==> t.left.right.id in Ids(t.left));
  }

  // ---------------------------------------------------------------- repair

  /** Where repair stops: the subtree it leaves behind and the context it does not change. */
  function Settle(t: Tree, c: Ctx): (Tree, Ctx)
    requires t.T? && CtxRooted(c)
    decreases c
  {
    if c.Top? then (Blacken(t), Top)
    else if c.color == Black then (t, c)
    else
      assert CtxRooted(c.up);
      if IsRed(Uncle(c)) then Settle(Recolored(c, t), c.up.up) else (Rotated(c, t), c.up.up)
  }

  lemma {:induction false} SettlePlugs(t: Tree, c: Ctx)
    requires t.T? && CtxRooted(c)
    ensures Plug(Settle(t, c).1, Settle(t, c).0) == Repair(t, c)
    ensures Ids(t) <= Ids(Settle(t, c).0) && Settle(t, c).0.T?
    decreases c
  {
    if !c.Top? && c.color == Red {
      assert CtxRooted(c.up);
      if IsRed(Uncle(c)) { SettlePlugs(Recolored(c, t), c.up.up); }
    }
  }

  /** The guard of the branch that goes wrong: the last step is rotate_left of a grandparent that
      is itself a right child. */
  predicate Faults(t: Tree, c: Ctx)
    requires t.T? && CtxRooted(c)
    decreases c
  {
    !c.Top? && c.color == Red
    && (assert CtxRooted(c.up);
        if IsRed(Uncle(c)) then Faults(Recolored(c, t), c.up.up) else c.up.R? && c.up.up.R?)
  }

  /** The subtree is in place, or misplaced by line 88. */
  predicate Outcome(m: Mem, t: Tree, c: Ctx, faults: bool) {
    && IsTree(m, t, CtxId(c)) && Apart(t, c) && t.T?
    && (!faults ==> IsCtx(m, c, t.id))
    && (faults ==> c.R? && t.left.T? && Misplaced(m, t, c, t.left.id))
  }

  function Painted(m: Mem, n: int, col: Color): (m': Mem)
    requires 0 <= n < |m|
  {
    m[n := m[n].(color := col)]
  }

  lemma PaintTree(m: Mem, t: Tree, p: int, col: Color)
    requires t.T? && IsTree(m, t, p) && Distinct(t)
    ensures IsTree(Painted(m, t.id, col), t.(color := col), p)
  {
    var m' := Painted(m, t.id, col);
    TreeFrame(m, m', t.left, t.id);
    TreeFrame(m, m', t.right, t.id);
  }

  lemma Paint(m: Mem, t: Tree, c: Ctx, col: Color)
    requires t.T? && Focus(m, t, c)
    ensures Focus(Painted(m, t.id, col), t.(color := col), c)
  {
    PaintTree(m, t, CtxId(c), col);
    CtxFrame(m, Painted(m, t.id, col), c, t.id);
  }

  lemma ZoomLeft(m: Mem, t: Tree, c: Ctx)
    requires t.T? && Focus(m, t, c)
    ensures Focus(m, t.left, L(c, t.color, t.id, t.key, t.right))
  {
  }

  lemma ZoomRight(m: Mem, t: Tree, c: Ctx)
    requires t.T? && Focus(m, t, c)
    ensures Focus(m, t.right, R(t.left, t.color, t.id, t.key, c))
  {
  }

  lemma PaintLeft(m: Mem, t: Tree, c: Ctx, col: Color)
    requires t.T? && t.left.T? && Focus(m, t, c)
    ensures 0 <= t.left.id < |m| && Focus(Painted(m, t.left.id, col), t.(left := t.left.(color := col)), c)
  {
    ZoomLeft(m, t, c);
    var c' := L(c, t.color, t.id, t.key, t.right);
    Paint(m, t.left, c', col);
    ZoomOut(Painted(m, t.left.id, col), t.left.(color := col), c');
  }

  lemma PaintRight(m: Mem, t: Tree, c: Ctx, col: Color)
    requires t.T? && t.right.T? && Focus(m, t, c)
    ensures 0 <= t.right.id < |m| && Focus(Painted(m, t.right.id, col), t.(right := t.right.(color := col)), c)
  {
    ZoomRight(m, t, c);
    var c' := R(t.left, t.color, t.id, t.key, c);
    Paint(m, t.right, c', col);
    ZoomOut(Painted(m, t.right.id, col), t.right.(color := col), c');
  }

  /** The three colour changes of lines 196-199. */
  lemma RecolorFocus(m: Mem, t: Tree, c: Ctx)
    requires !c.Top? && !c.up.Top? && Uncle(c).T? && Focus(m, t, c)
    ensures 0 <= c.id < |m| && 0 <= c.up.id < |m| && 0 <= Uncle(c).id < |m|
    ensures Focus(Painted(Painted(Painted(m, c.id, Black), Uncle(c).id, Black), c.up.id, Red), Recolored(c, t), c.up.up)
  {
    var g := c.up;
    ZoomOut(m, t, c);
    Paint(m, Outer(t, c), g, Black);
    var m1, p := Painted(m, c.id, Black), BlackParent(c, t);
    assert p == Outer(t, c).(color := Black);
    ZoomOut(m1, p, g);
    var m2 := Painted(m1, Uncle(c).id, Black);
    var top: Tree;
    if g.L? {
      PaintRight(m1, Outer(p, g), g.up, Black);
      top := Outer(p, g).(right := Blacken(g.right));
    } else {
      PaintLeft(m1, Outer(p, g), g.up, Black);
      top := Outer(p, g).(left := Blacken(g.left));
    }
    Paint(m2, top, g.up, Red);
  }

  lemma ZoomIds(t: Tree, c: Ctx)
    requires !c.Top?
    ensures Ids(Outer(t, c)) + CtxIds(c.up) == Ids(t) + CtxIds(c)
  {
  }

  /** Which child a node is can be read off its parent's record. */
  lemma WhichChild(m: Mem, t: Tree, c: Ctx)
    requires t.T? && !c.Top? && Focus(m, t, c)
    ensures 0 <= t.id < |m| && m[t.id].parent == c.id && 0 <= c.id < |m| && m[c.id].parent == CtxId(c.up)
    ensures (m[c.id].left == t.id <==> c.L?) && (m[c.id].right == t.id <==> c.R?)
    ensures m[c.id].color == c.color
  {
    RootIn(t);
    RootIn(Side(c));
  }

  /** After the zig-zag test of lines 211-220: node, parent and grandparent are in line. */
  function Straight(t: Tree, c: Ctx): (Tree, Ctx)
    requires t.T? && !c.Top? && !c.up.Top?
  {
    if c.up.L? && c.R? then (T(c.color, c.left, c.id, c.key, t.left), L(c.up, t.color, t.id, t.key, t.right))
    else if c.up.R? && c.L? then (T(c.color, t.right, c.id, c.key, c.right), R(t.left, t.color, t.id, t.key, c.up))
    else (t, c)
  }

  method Straighten(a: array<Node>, n: int, ghost t: Tree, ghost c: Ctx) returns (n': int)
    requires t.T? && n == t.id && !c.Top? && !c.up.Top? && Focus(a[..], t, c)
    modifies a
    ensures Focus(a[..], Straight(t, c).0, Straight(t, c).1) && n' == Straight(t, c).0.id
    ensures OnlyIn(old(a[..]), a[..], Ids(t) + CtxIds(c))
  {
    ghost var m, tp := a[..], Outer(t, c);
    WhichChild(m, t, c);
    ZoomOut(m, t, c);
    ZoomIds(t, c);
    WhichChild(m, tp, c.up);
    var p := a[n].parent;
    var g := a[p].parent;
    n' := n;
    if a[g].left == p && a[p].right == n {
      CanTurnLeft(m, tp, c.up);
      LeftTurnRotates(m, tp, c.up);
      LeftTurnFrame(m, tp, c.up);
      RotateLeft(a, p);
      assert Focus(a[..], RotL(tp), c.up);
      ZoomLeft(a[..], RotL(tp), c.up);
      n' := a[n].left;
    } else if a[g].right == p && a[p].left == n {
      CanTurnRight(m, tp, c.up);
      RightTurnRotates(m, tp, c.up);
      RightTurnFrame(m, tp, c.up);
      RotateRight(a, p);
      ZoomRight(a[..], RotR(tp), c.up);
      n' := a[n].right;
    }
  }

  /** Both colours are set at the end, lines 232-233. */
  lemma PaintOutcome(m: Mem, t: Tree, c: Ctx)
    requires t.T? && t.left.T? && c.R? && Outcome(m, t, c, true)
    ensures 0 <= t.left.id < |m|
    ensures Outcome(Painted(Painted(m, t.id, Black), t.left.id, Red), t.(color := Black, left := t.left.(color := Red)), c, true)
  {
    var m1 := Painted(m, t.id, Black);
    var m2 := Painted(m1, t.left.id, Red);
    PaintTree(m, t, c.id, Black);
    PaintTree(m1, t.left, t.id, Red);
    TreeFrame(m1, m2, t.right, t.id);
    RootIn(t.left);
    assert CtxIds(c.up) <= CtxIds(c);
    CtxFrame(m, m2, c.up, c.id);
  }

  /** The grandparent of a node in line, over its child on that side. */
  function Trio(t: Tree, c: Ctx): Tree
    requires !c.Top? && !c.up.Top?
  {
    Outer(Outer(t, c), c.up)
  }

  /** Both steps up from a node are inside the memory. */
  lemma TwoUp(m: Mem, t: Tree, c: Ctx)
    requires t.T? && !c.Top? && !c.up.Top? && Focus(m, t, c)
    ensures 0 <= t.id < |m| && m[t.id].parent == c.id && 0 <= c.id < |m| && m[c.id].parent == c.up.id && 0 <= c.up.id < |m|
    ensures (m[c.id].left == t.id <==> c.L?) && (m[c.id].right == t.id <==> c.R?)
    ensures Focus(m, Trio(t, c), c.up.up) && Ids(Trio(t, c)) + CtxIds(c.up.up) == Ids(t) + CtxIds(c)
  {
    WhichChild(m, t, c);
    ZoomOut(m, t, c);
    WhichChild(m, Outer(t, c), c.up);
    ZoomOut(m, Outer(t, c), c.up);
    ZoomIds(t, c);
    ZoomIds(Outer(t, c), c.up);
  }

  /** What the right rotation at the grandparent leaves, before and after the colour changes. */
  lemma RightOutcome(m: Mem, t: Tree, c: Ctx, g: int)
    requires t.T? && c.L? && c.up.L? && Focus(m, Trio(t, c), c.up.up) && g == c.up.id
    ensures 0 <= g < |m| && m[g].left == c.id && 0 <= c.id < |m| && Four(m, g, c.id, m[c.id].right, m[g].parent)
    ensures OnlyIn(m, RightTurn(m, g), Ids(Trio(t, c)) + CtxIds(c.up.up))
    ensures Outcome(Painted(Painted(RightTurn(m, g), c.id, Black), g, Red), Rotated(c, t), c.up.up, false)
  {
    var tg := Trio(t, c);
    CanTurnRight(m, tg, c.up.up);
    RightTurnRotates(m, tg, c.up.up);
    RightTurnFrame(m, tg, c.up.up);
    var m1, t1 := RightTurn(m, g), RotR(tg);
    Paint(m1, t1, c.up.up, Black);
    PaintRight(Painted(m1, c.id, Black), t1.(color := Black), c.up.up, Red);
  }

  lemma LeftOutcome(m: Mem, t: Tree, c: Ctx, g: int)
    requires t.T? && c.R? && c.up.R? && Focus(m, Trio(t, c), c.up.up) && g == c.up.id
    ensures 0 <= g < |m| && m[g].right == c.id && 0 <= c.id < |m| && Four(m, g, c.id, m[c.id].left, m[g].parent)
    ensures OnlyIn(m, LeftTurn(m, g), Ids(Trio(t, c)) + CtxIds(c.up.up))
    ensures Outcome(Painted(Painted(LeftTurn(m, g), c.id, Black), g, Red), Rotated(c, t), c.up.up, c.up.up.R?)
  {
    var tg := Trio(t, c);
    CanTurnLeft(m, tg, c.up.up);
    LeftTurnRotates(m, tg, c.up.up);
    LeftTurnFrame(m, tg, c.up.up);
    var m1, t1 := LeftTurn(m, g), RotL(tg);
    if c.up.up.R? {
      PaintOutcome(m1, t1, c.up.up);
    } else {
      Paint(m1, t1, c.up.up, Black);
      PaintLeft(Painted(m1, c.id, Black), t1.(color := Black), c.up.up, Red);
    }
  }

  method RotateGrandparent(a: array<Node>, n: int, ghost t: Tree, ghost c: Ctx)
    requires t.T? && n == t.id && !c.Top? && !c.up.Top? && Focus(a[..], t, c)
    requires c.L? <==> c.up.L?
    modifies a
    ensures Outcome(a[..], Rotated(c, t), c.up.up, c.up.R? && c.up.up.R?)
    ensures OnlyIn(old(a[..]), a[..], Ids(t) + CtxIds(c))
  {
    TwoUp(a[..], t, c);
    var p := a[n].parent;
    var g := a[p].parent;
    if a[p].left == n {
      RightOutcome(a[..], t, c, g);
      RotateRight(a, g);
    } else if a[p].right == n {
      LeftOutcome(a[..], t, c, g);
      RotateLeft(a, g);
    }
    PaintBoth(a, p, g);
  }

  /** Lines 231-232 */
  method PaintBoth(a: array<Node>, p: int, g: int)
    requires 0 <= p < a.Length && 0 <= g < a.Length
    modifies a
    ensures a[..] == Painted(Painted(old(a[..]), p, Black), g, Red)
  {
    a[p] := a[p].(color := Black);
    a[g] := a[g].(color := Red);
  }

  lemma UncleIn(m: Mem, t: Tree, c: Ctx)
    requires t.T? && !c.Top? && !c.up.Top? && Focus(m, t, c)
    ensures 0 <= c.up.id < |m|
    ensures (if m[c.up.id].left == c.id then m[c.up.id].right else m[c.up.id].left) == Root(Uncle(c))
    ensures Uncle(c).T? ==> 0 <= Uncle(c).id < |m| && m[Uncle(c).id].color == Uncle(c).color
    ensures {c.id, c.up.id, Root(Uncle(c))} <= CtxIds(c) + {Null}
  {
    ZoomOut(m, t, c);
    WhichChild(m, Outer(t, c), c.up);
    RootIn(Uncle(c));
    assert CtxIds(c) == CtxIds(c.up) + {c.id} + Ids(Side(c));
    assert CtxIds(c.up) == CtxIds(c.up.up) + {c.up.id} + Ids(Uncle(c));
  }

  lemma RecoloredIds(t: Tree, c: Ctx)
    requires !c.Top? && !c.up.Top?
    ensures Ids(Recolored(c, t)) + CtxIds(c.up.up) == Ids(t) + CtxIds(c)
  {
    ZoomIds(t, c);
    ZoomIds(Outer(t, c), c.up);
    assert Ids(BlackParent(c, t)) == Ids(Outer(t, c));
    assert Ids(Blacken(Uncle(c))) == Ids(Uncle(c));
  }

  lemma StraightRotated(t: Tree, c: Ctx)
    requires t.T? && !c.Top? && !c.up.Top? && IsRed(t) && RedCtx(c)
    ensures
      var (t', c') := Straight(t, c);
      && t'.T? && !c'.Top? && !c'.up.Top? && (c'.L? <==> c'.up.L?) && c'.up == c.up
      && Rotated(c', t') == Rotated(c, t) && Ids(t') + CtxIds(c') == Ids(t) + CtxIds(c)
  {
  }

  method Recolor(a: array<Node>, p: int, u: int, g: int, ghost t: Tree, ghost c: Ctx)
    requires IsRed(t) && !c.Top? && !c.up.Top? && Uncle(c).T? && Focus(a[..], t, c)
    requires p == c.id && u == Uncle(c).id && g == c.up.id
    modifies a
    ensures Focus(a[..], Recolored(c, t), c.up.up)
    ensures OnlyIn(old(a[..]), a[..], Ids(t) + CtxIds(c))
  {
    ghost var m := a[..];
    RecolorFocus(m, t, c);
    UncleIn(m, t, c);
    a[p] := a[p].(color := Black);
    a[u] := a[u].(color := Black);
    a[g] := a[g].(color := Red);
    assert a[..] == Painted(Painted(Painted(m, p, Black), u, Black), g, Red);
  }

  method RotateTwice(a: array<Node>, n: int, ghost t: Tree, ghost c: Ctx)
    requires IsRed(t) && n == t.id && RedCtx(c) && !c.up.Top? && Focus(a[..], t, c)
    modifies a
    ensures Outcome(a[..], Rotated(c, t), c.up.up, c.up.R? && c.up.up.R?)
    ensures OnlyIn(old(a[..]), a[..], Ids(t) + CtxIds(c))
  {
    StraightRotated(t, c);
    var n' := Straighten(a, n, t, c);
    RotateGrandparent(a, n', Straight(t, c).0, Straight(t, c).1);
  }

  /** insert_repair (lines 178-235) leaves the subtree and the context where Settle says, with all
      parent pointers, unless line 88 is reached below a right child. */
  method InsertRepair(a: array<Node>, n: int, ghost t: Tree, ghost c: Ctx)
    requires IsRed(t) && n == t.id && CtxRooted(c) && Focus(a[..], t, c)
    modifies a
    ensures Outcome(a[..], Settle(t, c).0, Settle(t, c).1, Faults(t, c))
    ensures OnlyIn(old(a[..]), a[..], Ids(t) + CtxIds(c))
    decreases c
  {
    ghost var m := a[..];
    if a[n].parent == Null {
      assert c.Top? by { if !c.Top? { WhichChild(m, t, c); } }
      Paint(m, t, c, Black);
      a[n] := a[n].(color := Black);
    } else {
      WhichChild(m, t, c);
      var p := a[n].parent;
      if a[p].color == Black {
      } else {
        assert CtxRooted(c.up);
        UncleIn(m, t, c);
        var g := a[p].parent;
        var u := if a[g].left == p then a[g].right else a[g].left;
        if u != Null && a[u].color == Red {
          RecoloredIds(t, c);
          Recolor(a, p, u, g, t, c);
          InsertRepair(a, g, Recolored(c, t), c.up.up);
        } else {
          RotateTwice(a, n, t, c);
        }
      }
    }
  }

  // ---------------------------------------------------------------- insertion

  lemma Attach(m: Mem, m': Mem, c: Ctx, n: int, key: int)
    requires Focus(m, E, c) && |m| == |m'| && 0 <= n < |m| && n !in CtxIds(c)
    requires m'[n] == Node(Red, key, CtxId(c), Null, Null)
    requires !c.Top? ==> m'[c.id] == Hole(c, n)
    requires OnlyIn(m, m', {n, CtxId(c)})
    ensures Focus(m', Leaf(n, key), c)
  {
    Refill(m, m', c, Null, n);
    assert Ids(Leaf(n, key)) == {n};
  }

  lemma {:induction false} PlaceIds(t: Tree, key: int, c: Ctx)
    ensures CtxIds(Place(t, key, c)) == Ids(t) + CtxIds(c)
    decreases t
  {
    match t
    case E =>
    case T(col, l, x, k, r) =>
      if k > key { PlaceIds(l, key, L(c, col, x, k, r)); } else { PlaceIds(r, key, R(l, col, x, k, c)); }
  }

  /** insert_recurse (lines 144-175) hangs the node, red and without children, into the place
      that the search finds. */
  method InsertRecurse(a: array<Node>, root: int, n: int, ghost t: Tree, ghost c: Ctx)
    requires Focus(a[..], t, c) && root == Root(t) && (t.E? ==> c.Top?)
    requires 0 <= n < a.Length && n !in Ids(t) + CtxIds(c)
    modifies a
    ensures Focus(a[..], Leaf(n, old(a[n].key)), Place(t, old(a[n].key), c))
    ensures OnlyIn(old(a[..]), a[..], Ids(t) + CtxIds(c) + {n})
    decreases t
  {
    ghost var m, key := a[..], a[n].key;
    ghost var place := Place(t, key, c);
    PlaceIds(t, key, c);
    if t.T? {
      ZoomLeft(m, t, c);
      ZoomRight(m, t, c);
      assert Ids(t) == Ids(t.left) + {t.id} + Ids(t.right);
    }
    if root != Null && a[root].key > a[n].key {
      if a[root].left != Null {
        InsertRecurse(a, a[root].left, n, t.left, L(c, t.color, t.id, t.key, t.right));
        return;
      } else {
        a[root] := a[root].(left := n);
      }
    } else if root != Null {
      if a[root].right != Null {
        InsertRecurse(a, a[root].right, n, t.right, R(t.left, t.color, t.id, t.key, c));
        return;
      } else {
        a[root] := a[root].(right := n);
      }
    }
    a[n] := a[n].(parent := root);
    a[n] := a[n].(left := Null, right := Null);
    a[n] := a[n].(color := Red);
    Attach(m, a[..], place, n, key);
  }

  lemma {:induction false} PlaceRooted(t: Tree, key: int, c: Ctx)
    requires CtxRooted(c) && (c.Top? ==> !IsRed(t))
    ensures CtxRooted(Place(t, key, c))
    decreases t
  {
    match t
    case E =>
    case T(col, l, x, k, r) =>
      if k > key { PlaceRooted(l, key, L(c, col, x, k, r)); } else { PlaceRooted(r, key, R(l, col, x, k, c)); }
  }

  /** Nodes linked by parent pointers up to one without a parent. */
  predicate Chain(m: Mem, s: seq<int>) {
    s != [] ==> 0 <= s[0] < |m| && m[s[0]].parent == (if |s| > 1 then s[1] else Null) && Chain(m, s[1..])
  }

  function Ups(c: Ctx): seq<int>
    decreases c
  {
    if c.Top? then [] else [c.id] + Ups(c.up)
  }

  lemma {:induction false} CtxChain(m: Mem, c: Ctx, hole: int)
    requires IsCtx(m, c, hole)
    ensures Chain(m, Ups(c))
    decreases c
  {
    if !c.Top? { CtxChain(m, c.up, c.id); }
  }

  /** The nodes from n in t up to the root. */
  function PathUp(t: Tree, n: int, up: seq<int>): seq<int> {
    if t.E? then up
    else if n == t.id then [t.id] + up
    else PathUp(if n in Ids(t.left) then t.left else t.right, n, [t.id] + up)
  }

  lemma {:induction false} PathChain(m: Mem, t: Tree, n: int, up: seq<int>)
    requires IsTree(m, t, if up == [] then Null else up[0]) && n in Ids(t) && Chain(m, up)
    ensures Chain(m, PathUp(t, n, up)) && PathUp(t, n, up) != [] && PathUp(t, n, up)[0] == n
    ensures PathUp(t, n, up)[|PathUp(t, n, up)| - 1] == (if up == [] then t.id else up[|up| - 1])
    decreases t
  {
    assert ([t.id] + up)[1..] == up;
    if n != t.id { PathChain(m, if n in Ids(t.left) then t.left else t.right, n, [t.id] + up); }
  }

  lemma {:induction false} RootOfPlug(t: Tree, c: Ctx)
    requires t.T?
    ensures Plug(c, t).T? && Root(Plug(c, t)) == (if c.Top? then t.id else Ups(c)[|Ups(c)| - 1])
    decreases c
  {
    if !c.Top? { RootOfPlug(Outer(t, c), c.up); }
  }

  method Climb(a: array<Node>, n: int, ghost s: seq<int>) returns (root: int)
    requires Chain(a[..], s) && s != [] && s[0] == n
    ensures root == s[|s| - 1]
  {
    root := n;
    ghost var i := 0;
    while a[root].parent != Null
      invariant 0 <= i < |s| && root == s[i] && Chain(a[..], s[i..])
      decreases |s| - i
    {
      assert s[i..][1..] == s[i + 1..];
      root := a[root].parent;
      i := i + 1;
    }
  }

  /** The outcome of repair is a path up from every node of the repaired subtree. */
  lemma OutcomeChain(m: Mem, t: Tree, c: Ctx, faults: bool)
    requires Outcome(m, t, c, faults)
    ensures Chain(m, Ups(c)) && CtxId(c) == (if Ups(c) == [] then Null else Ups(c)[0])
  {
    if faults {
      CtxChain(m, c.up, c.id);
      assert Ups(c)[1..] == Ups(c.up);
    } else {
      CtxChain(m, c, t.id);
    }
  }

  /** Any tree found at the root has a subtree at the hole of a context. */
  lemma {:induction false} Reaches(m: Mem, c: Ctx, hole: int, t: Tree)
    requires IsCtx(m, c, hole) && hole != Null && t.T? && IsTree(m, t, Null)
    requires t.id == if c.Top? then hole else Ups(c)[|Ups(c)| - 1]
    ensures exists s: Tree :: s.T? && s.id == hole && IsTree(m, s, CtxId(c))
    decreases c
  {
    if c.Top? {
      assert IsTree(m, t, CtxId(c));
    } else {
      assert !c.up.Top? ==> Ups(c)[1..] == Ups(c.up);
      Reaches(m, c.up, c.id, t);
      var s: Tree :| s.T? && s.id == c.id && IsTree(m, s, CtxId(c.up));
      var s' := if c.L? then s.left else s.right;
      assert s'.T? && s'.id == hole && IsTree(m, s', c.id);
    }
  }

  /** The right child of the parent does not point back to it. */
  lemma MisplacedChild(m: Mem, t: Tree, c: Ctx, u: Tree)
    requires Outcome(m, t, c, true) && u.T? && u.id == c.id
    ensures !IsTree(m, u, CtxId(c.up))
  {
    RootIn(t);
  }

  /** No tree at all is represented once line 88 has misplaced a subtree. */
  lemma MisplacedIsNoTree(m: Mem, t: Tree, c: Ctx, s: Tree)
    requires Outcome(m, t, c, true) && s.T? && s.id == Ups(c)[|Ups(c)| - 1]
    ensures !IsTree(m, s, Null)
  {
    assert !c.up.Top? ==> Ups(c)[1..] == Ups(c.up);
    forall u: Tree | u.T? && u.id == c.id ensures !IsTree(m, u, CtxId(c.up)) { MisplacedChild(m, t, c, u); }
    if IsTree(m, s, Null) {
      Reaches(m, c.up, c.id, s);
    }
  }

  predicate InsertFaults(t: Tree, n: int, key: int)
    requires !IsRed(t)
  {
    PlaceRooted(t, key, Top);
    Faults(Leaf(n, key), Place(t, key, Top))
  }

  function Inserted(t: Tree, n: int, key: int): Tree
    requires !IsRed(t)
  {
    PlaceRooted(t, key, Top);
    Insert(t, n, key)
  }

  /** insert (lines 128-141).  The returned root represents the tree of module RedBlack, parent
      pointers included, if and only if repair does not end in rotate_left below a right child;
      in that case it represents no tree at all.  No node outside the tree is touched. */
  method InsertNode(a: array<Node>, root: int, n: int, ghost t: Tree) returns (r: int)
    requires IsTree(a[..], t, Null) && Distinct(t) && !IsRed(t) && root == Root(t)
    requires 0 <= n < a.Length && n !in Ids(t)
    modifies a
    ensures r == Root(Inserted(t, n, old(a[n].key)))
    ensures !InsertFaults(t, n, old(a[n].key)) ==>
      IsTree(a[..], Inserted(t, n, old(a[n].key)), Null) && Distinct(Inserted(t, n, old(a[n].key)))
    ensures InsertFaults(t, n, old(a[n].key)) ==>
      forall s: Tree :: s.T? && s.id == r ==> !IsTree(a[..], s, Null)
    ensures OnlyIn(old(a[..]), a[..], Ids(t) + {n})
  {
    ghost var key := a[n].key;
    ghost var leaf, c := Leaf(n, key), Place(t, key, Top);
    PlaceRooted(t, key, Top);
    PlaceIds(t, key, Top);
    InsertRecurse(a, root, n, t, Top);
    InsertRepair(a, n, leaf, c);
    ghost var (t', c') := Settle(leaf, c);
    SettlePlugs(leaf, c);
    RootIn(leaf);
    ghost var path := WayUp(a[..], t', c', n, Faults(leaf, c));
    r := Climb(a, n, path);
    FinalTree(a[..], t', c', Faults(leaf, c), r);
  }

  /** From every node of the repaired subtree a chain leads to the root. */
  lemma WayUp(m: Mem, t: Tree, c: Ctx, n: int, faults: bool) returns (path: seq<int>)
    requires Outcome(m, t, c, faults) && n in Ids(t)
    ensures Chain(m, path) && path != [] && path[0] == n && path[|path| - 1] == Root(Plug(c, t))
  {
    path := PathUp(t, n, Ups(c));
    OutcomeChain(m, t, c, faults);
    PathChain(m, t, n, Ups(c));
    RootOfPlug(t, c);
  }

  lemma FinalTree(m: Mem, t: Tree, c: Ctx, faults: bool, r: int)
    requires Outcome(m, t, c, faults) && r == Root(Plug(c, t))
    ensures !faults ==> IsTree(m, Plug(c, t), Null) && Distinct(Plug(c, t))
    ensures faults ==> forall s: Tree :: s.T? && s.id == r ==> !IsTree(m, s, Null)
  {
    RootOfPlug(t, c);
    if faults {
      forall s: Tree | s.T? && s.id == r ensures !IsTree(m, s, Null) { MisplacedIsNoTree(m, t, c, s); }
    } else {
      PlugHolds(m, t, c);
      PlugDistinct(t, c);
    }
  }

  // ---------------------------------------------------------------- when it goes wrong

  /** Ascending keys: the fifth insertion is the first one that line 88 breaks. */
  lemma AscendingKeysFault()
    ensures
      var t1 := Inserted(E, 0, 1);
      var t2 := Inserted(t1, 1, 2);
      var t3 := Inserted(t2, 2, 3);
      var t4 := Inserted(t3, 3, 4);
      && !InsertFaults(E, 0, 1) && !InsertFaults(t1, 1, 2) && !InsertFaults(t2, 2, 3) && !InsertFaults(t3, 3, 4)
      && InsertFaults(t4, 4, 5)
  {
  }
}
