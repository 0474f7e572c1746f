/** Red-black insertion on values: what the pointer code of libs/algo.c computes, and why the
    result is balanced.  A tree with a focus is a subtree and the context around it. */
module RedBlack {

  datatype Color = Red | Black

  /** A node carries its address `id`, so that the memory can be compared with the value. */
  datatype Tree = E | T(color: Color, left: Tree, id: int, key: int, right: Tree)

  /** The way from a subtree to the root: the subtree is a left or a right child. */
  datatype Ctx =
    | Top
    | L(up: Ctx, color: Color, id: int, key: int, right: Tree)
    | R(left: Tree, color: Color, id: int, key: int, up: Ctx)

  function Plug(c: Ctx, t: Tree): Tree
    decreases c
  {
    match c
    case Top => t
    case L(up, col, x, k, r) => Plug(up, T(col, t, x, k, r))
    case R(l, col, x, k, up) => Plug(up, T(col, l, x, k, t))
  }

  // ---------------------------------------------------------------- in-order contents

  function Inorder(t: Tree): seq<(int, int)> {
    match t
    case E => []
    case T(_, l, x, k, r) => Inorder(l) + [(x, k)] + Inorder(r)
  }

  function Before(c: Ctx): seq<(int, int)> {
    match c
    case Top => []
    case L(up, _, _, _, _) => Before(up)
    case R(l, _, x, k, up) => Before(up) + Inorder(l) + [(x, k)]
  }

  function After(c: Ctx): seq<(int, int)> {
    match c
    case Top => []
    case L(up, _, x, k, r) => [(x, k)] + Inorder(r) + After(up)
    case R(_, _, _, _, up) => After(up)
  }

  lemma GroupRight<X>(a: seq<X>, t: seq<X>, x: seq<X>, r: seq<X>, b: seq<X>)
    ensures a + (t + x + r) + b == a + t + (x + r + b)
  {
  }

  lemma GroupLeft<X>(a: seq<X>, l: seq<X>, x: seq<X>, t: seq<X>, b: seq<X>)
    ensures a + (l + x + t) + b == (a + l + x) + t + b
  {
  }

  lemma {:induction false} InorderPlug(c: Ctx, t: Tree)
    ensures Inorder(Plug(c, t)) == Before(c) + Inorder(t) + After(c)
    decreases c
  {
    match c
    case Top =>
    case L(up, col, x, k, r) =>
      InorderPlug(up, T(col, t, x, k, r));
      GroupRight(Before(up), Inorder(t), [(x, k)], Inorder(r), After(up));
    case R(l, col, x, k, up) =>
      InorderPlug(up, T(col, l, x, k, t));
      GroupLeft(Before(up), Inorder(l), [(x, k)], Inorder(t), After(up));
  }

  // ---------------------------------------------------------------- balance

  predicate IsRed(t: Tree) { t.T? && t.color == Red }

  predicate RedCtx(c: Ctx) { !c.Top? && c.color == Red }

  /** Every path has h black nodes and no red node has a red child. */
  predicate Bal(t: Tree, h: nat) {
    match t
    case E => h == 0
    case T(Black, l, _, _, r) => h > 0 && Bal(l, h - 1) && Bal(r, h - 1)
    case T(Red, l, _, _, r) => Bal(l, h) && Bal(r, h) && !IsRed(l) && !IsRed(r)
  }

  /** A red-black tree: balanced with a black root. */
  ghost predicate RedBlackTree(t: Tree) {
    !IsRed(t) && exists h: nat :: Bal(t, h)
  }

  /** The context fits a hole of black height h; only the hole's root may clash with it. */
  predicate CtxBal(c: Ctx, h: nat)
    decreases c
  {
    match c
    case Top => true
    case L(up, Black, _, _, r) => Bal(r, h) && CtxBal(up, h + 1)
    case R(l, Black, _, _, up) => Bal(l, h) && CtxBal(up, h + 1)
    case L(up, Red, _, _, r) => Bal(r, h) && !IsRed(r) && CtxBal(up, h) && !up.Top? && up.color == Black
    case R(l, Red, _, _, up) => Bal(l, h) && !IsRed(l) && CtxBal(up, h) && !up.Top? && up.color == Black
  }

  lemma {:induction false} PlugBal(c: Ctx, t: Tree, h: nat)
    requires Bal(t, h) && CtxBal(c, h)
    requires IsRed(t) ==> !c.Top? && c.color == Black
    ensures RedBlackTree(Plug(c, t))
    decreases c
  {
    match c
    case Top =>
    case L(up, col, x, k, r) => PlugBal(up, T(col, t, x, k, r), if col == Black then h + 1 else h);
    case R(l, col, x, k, up) => PlugBal(up, T(col, l, x, k, t), if col == Black then h + 1 else h);
  }

  // ---------------------------------------------------------------- repair

  /** No red node at the root of the context. */
  predicate CtxRooted(c: Ctx) {
    match c
    case Top => true
    case L(up, col, _, _, _) => (up.Top? ==> col == Black) && CtxRooted(up)
    case R(_, col, _, _, up) => (up.Top? ==> col == Black) && CtxRooted(up)
  }

  /** The other child of the grandparent. */
  function Uncle(c: Ctx): Tree
    requires !c.Top? && !c.up.Top?
  {
    if c.up.L? then c.up.right else c.up.left
  }

  function Blacken(t: Tree): Tree { if t.T? then t.(color := Black) else t }

  /** The parent with the subtree plugged in, painted black. */
  function BlackParent(c: Ctx, t: Tree): Tree
    requires !c.Top?
  {
    if c.L? then T(Black, t, c.id, c.key, c.right) else T(Black, c.left, c.id, c.key, t)
  }

  /** The grandparent, red, over a black parent and a black uncle. */
  function Recolored(c: Ctx, t: Tree): Tree
    requires !c.Top? && !c.up.Top?
  {
    var g := c.up;
    if g.L? then T(Red, BlackParent(c, t), g.id, g.key, Blacken(g.right))
    else T(Red, Blacken(g.left), g.id, g.key, BlackParent(c, t))
  }

  /** One or two rotations at the grandparent: the middle one of the three comes out on top. */
  function Rotated(c: Ctx, t: Tree): Tree
    requires !c.Top? && !c.up.Top? && t.T?
  {
    var g := c.up;
    if g.L? && c.L? then T(Black, t, c.id, c.key, T(Red, c.right, g.id, g.key, g.right))
    else if g.L? then T(Black, T(Red, c.left, c.id, c.key, t.left), t.id, t.key, T(Red, t.right, g.id, g.key, g.right))
    else if c.R? then T(Black, T(Red, g.left, g.id, g.key, c.left), c.id, c.key, t)
    else T(Black, T(Red, g.left, g.id, g.key, t.left), t.id, t.key, T(Red, t.right, c.id, c.key, c.right))
  }

  /** What insert_repair makes of a red subtree in its context. */
  function Repair(t: Tree, c: Ctx): Tree
    requires t.T? && CtxRooted(c)
    decreases c
  {
    if c.Top? then Blacken(t)
    else if c.color == Black then Plug(c, t)
    else
      assert CtxRooted(c.up);
      if IsRed(Uncle(c)) then Repair(Recolored(c, t), c.up.up) else Plug(c.up.up, Rotated(c, t))
  }

  lemma {:induction false} CtxBalRooted(c: Ctx, h: nat)
    requires CtxBal(c, h)
    ensures CtxRooted(c)
    decreases c
  {
    if !c.Top? { CtxBalRooted(c.up, if c.color == Black then h + 1 else h); }
  }

  lemma RecoloredBal(c: Ctx, t: Tree, h: nat)
    requires Bal(t, h) && CtxBal(c, h) && RedCtx(c) && IsRed(t) && IsRed(Uncle(c))
    ensures Bal(Recolored(c, t), h + 1) && CtxBal(c.up.up, h + 1)
  {
  }

  lemma RotatedBal(c: Ctx, t: Tree, h: nat)
    requires Bal(t, h) && CtxBal(c, h) && RedCtx(c) && IsRed(t) && !IsRed(Uncle(c))
    ensures Bal(Rotated(c, t), h + 1) && CtxBal(c.up.up, h + 1)
  {
  }

  /** The repaired tree is a red-black tree. */
  lemma {:induction false} RepairBalances(t: Tree, c: Ctx, h: nat)
    requires Bal(t, h) && CtxBal(c, h) && IsRed(t) && CtxRooted(c)
    ensures RedBlackTree(Repair(t, c))
    decreases c
  {
    if c.Top? {
      assert Bal(Blacken(t), h + 1);
    } else if c.color == Black {
      PlugBal(c, t, h);
    } else if IsRed(Uncle(c)) {
      RecoloredBal(c, t, h);
      RepairBalances(Recolored(c, t), c.up.up, h + 1);
    } else {
      RotatedBal(c, t, h);
      PlugBal(c.up.up, Rotated(c, t), h + 1);
    }
  }

  lemma AroundGrandparent(c: Ctx, t: Tree)
    requires !c.Top? && !c.up.Top? && t.T?
    ensures Before(c) + Inorder(t) + After(c) == Before(c.up.up) + Inorder(Recolored(c, t)) + After(c.up.up)
  {
    InorderPlug(c, t);
    var p := if c.L? then T(c.color, t, c.id, c.key, c.right) else T(c.color, c.left, c.id, c.key, t);
    InorderPlug(c.up, p);
    assert Inorder(p) == Inorder(BlackParent(c, t));
    var g := if c.up.L? then T(c.up.color, p, c.up.id, c.up.key, c.up.right) else T(c.up.color, c.up.left, c.up.id, c.up.key, p);
    InorderPlug(c.up.up, g);
    assert Inorder(g) == Inorder(Recolored(c, t));
  }

  lemma Regroup(a: seq<(int, int)>, x: (int, int), b: seq<(int, int)>, y: (int, int), d: seq<(int, int)>)
    ensures a + [x] + (b + [y] + d) == (a + [x] + b) + [y] + d
  {
  }

  lemma BlackenKeepsInorder(t: Tree)
    ensures Inorder(Blacken(t)) == Inorder(t)
  {
  }

  lemma RotatedInorder(c: Ctx, t: Tree)
    requires !c.Top? && !c.up.Top? && t.T?
    ensures Inorder(Rotated(c, t)) == Inorder(Recolored(c, t))
  {
    var g := c.up;
    BlackenKeepsInorder(Uncle(c));
    var p := BlackParent(c, t);
    if g.L? && c.L? {
      Regroup(Inorder(t), (c.id, c.key), Inorder(c.right), (g.id, g.key), Inorder(g.right));
    } else if g.L? {
      var a, b := T(Red, c.left, c.id, c.key, t.left), T(Red, t.right, g.id, g.key, g.right);
      assert Rotated(c, t) == T(Black, a, t.id, t.key, b);
      assert Inorder(p) == Inorder(a) + [(t.id, t.key)] + Inorder(t.right) by {
        Regroup(Inorder(c.left), (c.id, c.key), Inorder(t.left), (t.id, t.key), Inorder(t.right));
      }
      Regroup(Inorder(a), (t.id, t.key), Inorder(t.right), (g.id, g.key), Inorder(g.right));
    } else if c.R? {
      Regroup(Inorder(g.left), (g.id, g.key), Inorder(c.left), (c.id, c.key), Inorder(t));
    } else {
      var a, b := T(Red, g.left, g.id, g.key, t.left), T(Red, t.right, c.id, c.key, c.right);
      assert Rotated(c, t) == T(Black, a, t.id, t.key, b);
      assert Inorder(p) == Inorder(t.left) + [(t.id, t.key)] + Inorder(b) by {
        Regroup(Inorder(t.left), (t.id, t.key), Inorder(t.right), (c.id, c.key), Inorder(c.right));
      }
      Regroup(Inorder(g.left), (g.id, g.key), Inorder(t.left), (t.id, t.key), Inorder(b));
    }
  }

  /** Repair changes colours and shape, never the in-order sequence. */
  lemma {:induction false} RepairInorder(t: Tree, c: Ctx)
    requires t.T? && CtxRooted(c)
    ensures Inorder(Repair(t, c)) == Before(c) + Inorder(t) + After(c)
    decreases c
  {
    if c.Top? {
    } else if c.color == Black {
      InorderPlug(c, t);
    } else if IsRed(Uncle(c)) {
      AroundGrandparent(c, t);
      RepairInorder(Recolored(c, t), c.up.up);
    } else {
      AroundGrandparent(c, t);
      RotatedInorder(c, t);
      InorderPlug(c.up.up, Rotated(c, t));
    }
  }

  // ---------------------------------------------------------------- insertion

  /** The empty place insert_recurse finds for a key: left of larger keys, right of the rest. */
  function Place(t: Tree, key: int, c: Ctx): Ctx
    decreases t
  {
    match t
    case E => c
    case T(col, l, x, k, r) =>
      if k > key then Place(l, key, L(c, col, x, k, r)) else Place(r, key, R(l, col, x, k, c))
  }

  lemma {:induction false} PlacePlug(t: Tree, key: int, c: Ctx)
    ensures Plug(Place(t, key, c), E) == Plug(c, t)
    decreases t
  {
    match t
    case E =>
    case T(col, l, x, k, r) =>
      if k > key { PlacePlug(l, key, L(c, col, x, k, r)); } else { PlacePlug(r, key, R(l, col, x, k, c)); }
  }

  lemma {:induction false} PlaceBal(t: Tree, key: int, c: Ctx, h: nat)
    requires Bal(t, h) && CtxBal(c, h) && (IsRed(t) ==> !c.Top? && c.color == Black)
    ensures CtxBal(Place(t, key, c), 0)
    decreases t
  {
    match t
    case E =>
    case T(col, l, x, k, r) =>
      var b := if col == Black then h - 1 else h;
      if k > key { PlaceBal(l, key, L(c, col, x, k, r), b); } else { PlaceBal(r, key, R(l, col, x, k, c), b); }
  }

  /** Keys do not decrease along the sequence. */
  ghost predicate Sorted(s: seq<(int, int)>) {
    forall i, j :: 0 <= i < j < |s| ==> s[i].1 <= s[j].1
  }

  /** The place is after all keys not greater than the new one and before all greater ones. */
  ghost predicate Fits(c: Ctx, key: int) {
    && (forall i :: 0 <= i < |Before(c)| ==> Before(c)[i].1 <= key)
    && (forall i :: 0 <= i < |After(c)| ==> After(c)[i].1 > key)
  }

  lemma {:induction false} PlaceFits(t: Tree, key: int, c: Ctx)
    requires Sorted(Inorder(t)) && Fits(c, key)
    ensures Fits(Place(t, key, c), key)
    decreases t
  {
    match t
    case E =>
    case T(col, l, x, k, r) =>
      var s := Inorder(t);
      assert s == Inorder(l) + [(x, k)] + Inorder(r);
      assert s[|Inorder(l)|] == (x, k);
      if k > key {
        forall i | 0 <= i < |Inorder(r)| ensures Inorder(r)[i].1 > key {
          assert Inorder(r)[i] == s[|Inorder(l)| + 1 + i];
        }
        assert Sorted(Inorder(l)) by { SortedPart(Inorder(l), [(x, k)] + Inorder(r), s); }
        PlaceFits(l, key, L(c, col, x, k, r));
      } else {
        forall i | 0 <= i < |Inorder(l)| ensures Inorder(l)[i].1 <= key {
          assert Inorder(l)[i] == s[i];
        }
        assert Sorted(Inorder(r)) by {
          forall i, j | 0 <= i < j < |Inorder(r)| ensures Inorder(r)[i].1 <= Inorder(r)[j].1 {
            assert Inorder(r)[i] == s[|Inorder(l)| + 1 + i] && Inorder(r)[j] == s[|Inorder(l)| + 1 + j];
          }
        }
        PlaceFits(r, key, R(l, col, x, k, c));
      }
  }

  lemma SortedPart(a: seq<(int, int)>, b: seq<(int, int)>, s: seq<(int, int)>)
    requires s == a + b && Sorted(s)
    ensures Sorted(a)
  {
    forall i, j | 0 <= i < j < |a| ensures a[i].1 <= a[j].1 { assert s[i] == a[i] && s[j] == a[j]; }
  }

  function Leaf(id: int, key: int): Tree { T(Red, E, id, key, E) }

  /** What insert computes for a tree whose root is not red. */
  function Insert(t: Tree, id: int, key: int): Tree
    requires !IsRed(t) && CtxRooted(Place(t, key, Top))
  {
    Repair(Leaf(id, key), Place(t, key, Top))
  }

  /** Insertion into a red-black search tree: the result is a red-black tree, and its in-order
      sequence is the old one with the new node after all keys not greater than its own. */
  lemma InsertCorrect(t: Tree, id: int, key: int)
    requires RedBlackTree(t) && Sorted(Inorder(t))
    ensures CtxRooted(Place(t, key, Top))
    ensures RedBlackTree(Insert(t, id, key)) && Sorted(Inorder(Insert(t, id, key)))
    ensures
      var c := Place(t, key, Top);
      && Inorder(t) == Before(c) + After(c)
      && Inorder(Insert(t, id, key)) == Before(c) + [(id, key)] + After(c)
      && Fits(c, key)
  {
    var c := Place(t, key, Top);
    InsertBalances(t, id, key);
    RepairInorder(Leaf(id, key), c);
    assert Inorder(Leaf(id, key)) == [(id, key)];
    PlacePlug(t, key, Top);
    InorderPlug(c, E);
    assert Before(c) + [] + After(c) == Before(c) + After(c);
    PlaceFits(t, key, Top);
    StaysSorted(Before(c), (id, key), After(c));
  }

  lemma InsertBalances(t: Tree, id: int, key: int)
    requires RedBlackTree(t)
    ensures CtxRooted(Place(t, key, Top)) && RedBlackTree(Insert(t, id, key))
  {
    var h: nat :| Bal(t, h);
    var c := Place(t, key, Top);
    PlaceBal(t, key, Top, h);
    CtxBalRooted(c, 0);
    RepairBalances(Leaf(id, key), c, 0);
  }

  /** A pair between keys not greater and keys greater than its own. */
  lemma StaysSorted(a: seq<(int, int)>, x: (int, int), b: seq<(int, int)>)
    requires Sorted(a + b) && (forall i :: 0 <= i < |a| ==> a[i].1 <= x.1) && (forall i :: 0 <= i < |b| ==> b[i].1 > x.1)
    ensures Sorted(a + [x] + b)
  {
    var s, u, n := a + b, a + [x] + b, |a|;
    forall i, j | 0 <= i < j < |u| ensures u[i].1 <= u[j].1 {
      if i != n && j != n { assert u[i] == s[if i < n then i else i - 1] && u[j] == s[if j < n then j else j - 1]; }
    }
  }

  // ---------------------------------------------------------------- depth

  function Size(t: Tree): nat { if t.E? then 0 else Size(t.left) + 1 + Size(t.right) }

  function Max(a: nat, b: nat): nat { if a < b then b else a }

  function Depth(t: Tree): nat { if t.E? then 0 else 1 + Max(Depth(t.left), Depth(t.right)) }

  function Pow2(n: nat): nat { if n == 0 then 1 else 2 * Pow2(n - 1) }

  lemma {:induction false} BalancedSize(t: Tree, h: nat)
    requires Bal(t, h)
    ensures Size(t) + 1 >= Pow2(h)
    ensures Depth(t) <= 2 * h + (if IsRed(t) then 1 else 0)
    decreases t
  {
    match t
    case E =>
    case T(Black, l, _, _, r) => BalancedSize(l, h - 1); BalancedSize(r, h - 1);
    case T(Red, l, _, _, r) => BalancedSize(l, h); BalancedSize(r, h);
  }

  lemma {:induction false} Pow2Sum(a: nat, b: nat)
    ensures Pow2(a + b) == Pow2(a) * Pow2(b)
    decreases a
  {
    if a > 0 { Pow2Sum(a - 1, b); }
  }

  lemma {:induction false} Pow2Mono(a: nat, b: nat)
    requires a <= b
    ensures Pow2(a) <= Pow2(b)
    decreases b
  {
    if a < b { Pow2Mono(a, b - 1); }
  }

  lemma SquareMono(a: nat, b: nat)
    requires a <= b
    ensures a * a <= b * b
  {
    assert a * a <= a * b <= b * b;
  }

  /** The depth is at most twice the binary logarithm of the size plus one. */
  lemma DepthIsLogarithmic(t: Tree)
    requires RedBlackTree(t)
    ensures Pow2(Depth(t)) <= (Size(t) + 1) * (Size(t) + 1)
  {
    var h: nat :| Bal(t, h);
    BalancedSize(t, h);
    Pow2Mono(Depth(t), h + h);
    Pow2Sum(h, h);
    SquareMono(Pow2(h), Size(t) + 1);
  }
}
