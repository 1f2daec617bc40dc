// Red-black trees as values: the balance conditions, and what the repairs after insertion and
// removal in vm/lib/c_map.c do to a tree seen from the place of the change.

module RbSpec {
  datatype Color = Red | Black

  /** A tree of nodes `n`; the other fields are the contents of the node. */
  datatype Tree<N> = E | T(l: Tree<N>, n: N, key: int, data: int, c: Color, r: Tree<N>)

  /** A tree with a hole: the hole is the left or right child of node `n`. */
  datatype Ctx<N> =
    | Top
    | InLeft(n: N, key: int, data: int, c: Color, r: Tree<N>, above: Ctx<N>)
    | InRight(l: Tree<N>, n: N, key: int, data: int, c: Color, above: Ctx<N>)

  /** The subtree at the parent of the hole, with `t` in the hole. */
  function Fill<N>(x: Ctx<N>, t: Tree<N>): Tree<N>
    requires !x.Top?
  {
    if x.InLeft? then T(t, x.n, x.key, x.data, x.c, x.r) else T(x.l, x.n, x.key, x.data, x.c, t)
  }

  function Plug<N>(x: Ctx<N>, t: Tree<N>): Tree<N> {
    if x.Top? then t else Plug(x.above, Fill(x, t))
  }

  function Sibling<N>(x: Ctx<N>): Tree<N>
    requires !x.Top?
  {
    if x.InLeft? then x.r else x.l
  }

  /** The same parent with another colour and another sibling of the hole. */
  function Change<N>(x: Ctx<N>, c: Color, s: Tree<N>): Ctx<N>
    requires !x.Top?
  {
    if x.InLeft? then InLeft(x.n, x.key, x.data, c, s, x.above) else InRight(s, x.n, x.key, x.data, c, x.above)
  }

  // ---- contents -------------------------------------------------------------------------------------

  type Entry = (int, int)

  function Inorder<N>(t: Tree<N>): seq<Entry> {
    if t.E? then [] else Inorder(t.l) + [(t.key, t.data)] + Inorder(t.r)
  }

  /** Entries left and right of the hole. */
  function Before<N>(x: Ctx<N>): seq<Entry> {
    match x
    case Top => []
    case InLeft(_, _, _, _, _, a) => Before(a)
    case InRight(l, _, k, d, _, a) => Before(a) + Inorder(l) + [(k, d)]
  }

  function After<N>(x: Ctx<N>): seq<Entry> {
    match x
    case Top => []
    case InLeft(_, k, d, _, r, a) => [(k, d)] + Inorder(r) + After(a)
    case InRight(_, _, _, _, _, a) => After(a)
  }

  lemma AroundEntry(b: seq<Entry>, l: seq<Entry>, e: seq<Entry>, r: seq<Entry>, a: seq<Entry>)
    ensures b + l + (e + r + a) == b + (l + e + r) + a == (b + l + e) + r + a
  {
  }

  lemma {:induction false} InorderPlug<N>(x: Ctx<N>, t: Tree<N>)
    ensures Inorder(Plug(x, t)) == Before(x) + Inorder(t) + After(x)
  {
    if !x.Top? {
      InorderPlug(x.above, Fill(x, t));
      var b, i, a, e := Before(x.above), Inorder(t), After(x.above), [(x.key, x.data)];
      var s := Inorder(Sibling(x));
      if x.InLeft? { AroundEntry(b, i, e, s, a); } else { AroundEntry(b, s, e, i, a); }
    }
  }

  // ---- balance ----------------------------------------------------------------------------------------

  predicate IsRed<N>(t: Tree<N>) { t.T? && t.c.Red? }

  function Weight(c: Color): nat { if c.Black? then 1 else 0 }

  function BlackHeight<N>(t: Tree<N>): nat {
    if t.E? then 0 else BlackHeight(t.l) + Weight(t.c)
  }

  /** Every path down has as many black nodes. */
  predicate Balanced<N>(t: Tree<N>) {
    t.T? ==> Balanced(t.l) && Balanced(t.r) && BlackHeight(t.l) == BlackHeight(t.r)
  }

  /** No red node has a red child. */
  predicate NoRedRed<N>(t: Tree<N>) {
    t.T? ==> NoRedRed(t.l) && NoRedRed(t.r) && (t.c.Red? ==> !IsRed(t.l) && !IsRed(t.r))
  }

  predicate RedBlack<N>(t: Tree<N>) { Balanced(t) && NoRedRed(t) && !IsRed(t) }

  /** A subtree of black height `h` in the hole makes the whole tree balanced. */
  predicate CBalanced<N>(x: Ctx<N>, h: nat) {
    x.Top? || (Balanced(Sibling(x)) && BlackHeight(Sibling(x)) == h && CBalanced(x.above, h + Weight(x.c)))
  }

  predicate CRed<N>(x: Ctx<N>) { !x.Top? && x.c.Red? }

  predicate CNoRedRed<N>(x: Ctx<N>) {
    x.Top? || (NoRedRed(Sibling(x)) && CNoRedRed(x.above) && (x.c.Red? ==> !IsRed(Sibling(x)) && !CRed(x.above)))
  }

  /** The root of the whole tree is black. */
  predicate RootBlack<N>(x: Ctx<N>) {
    x.Top? || (if x.above.Top? then x.c.Black? else RootBlack(x.above))
  }

  ghost predicate GoodCtx<N>(x: Ctx<N>, h: nat) { CBalanced(x, h) && CNoRedRed(x) && RootBlack(x) }

  lemma {:induction false} PlugRedBlack<N>(x: Ctx<N>, t: Tree<N>)
    ensures RedBlack(Plug(x, t)) <==>
            Balanced(t) && NoRedRed(t) && GoodCtx(x, BlackHeight(t)) && !(CRed(x) && IsRed(t)) && (x.Top? ==> !IsRed(t))
  {
    if !x.Top? {
      PlugRedBlack(x.above, Fill(x, t));
    }
  }

  // ---- insertion ----------------------------------------------------------------------------------------

  /** c_map_fix_colors at a red node `t` in the hole: the whole tree it leaves. */
  function InsFix<N>(x: Ctx<N>, t: Tree<N>): Tree<N>
    requires t.T?
    decreases x
  {
    if x.Top? then t.(c := Black)
    else if x.c.Black? && !x.above.Top? then Plug(x, t)
    else if x.above.Top? then Plug(x, t)
    else
      var g := x.above;
      var u := Sibling(g);
      if IsRed(u) then
        InsFix(g.above, Pushed(x, g, t))
      else Plug(g.above, Rotated(x, g, t))
  }

  /** The subtree at the grandparent after recolouring parent, uncle and grandparent. */
  function Pushed<N>(x: Ctx<N>, g: Ctx<N>, t: Tree<N>): Tree<N>
    requires !x.Top? && !g.Top? && IsRed(Sibling(g))
  {
    Fill(Change(g, Red, Sibling(g).(c := Black)), Fill(Change(x, Black, Sibling(x)), t))
  }

  /** The subtree at the grandparent after c_map_l_l, c_map_l_r, c_map_r_l or c_map_r_r. */
  function Rotated<N>(x: Ctx<N>, g: Ctx<N>, t: Tree<N>): Tree<N>
    requires !x.Top? && !g.Top? && t.T?
  {
    if g.InLeft? && x.InLeft? then
      T(t, x.n, x.key, x.data, g.c, T(x.r, g.n, g.key, g.data, x.c, g.r))
    else if g.InLeft? then
      T(T(x.l, x.n, x.key, x.data, x.c, t.l), t.n, t.key, t.data, g.c, T(t.r, g.n, g.key, g.data, t.c, g.r))
    else if x.InLeft? then
      T(T(g.l, g.n, g.key, g.data, t.c, t.l), t.n, t.key, t.data, g.c, T(t.r, x.n, x.key, x.data, x.c, x.r))
    else
      T(T(g.l, g.n, g.key, g.data, x.c, x.l), x.n, x.key, x.data, g.c, t)
  }

  /** One level of a good context. */
  lemma CtxStep<N>(x: Ctx<N>, h: nat)
    requires GoodCtx(x, h) && !x.Top?
    ensures Balanced(Sibling(x)) && NoRedRed(Sibling(x)) && BlackHeight(Sibling(x)) == h
    ensures x.c.Red? ==> !IsRed(Sibling(x)) && !x.above.Top? && x.above.c.Black?
    ensures CBalanced(x.above, h + Weight(x.c)) && CNoRedRed(x.above) && RootBlack(x.above)
  {
  }

  lemma PushedGood<N>(x: Ctx<N>, g: Ctx<N>, t: Tree<N>)
    requires !x.Top? && !g.Top? && x.c.Red? && g.c.Black?
    requires IsRed(t) && Balanced(t) && NoRedRed(t)
    requires Balanced(Sibling(x)) && NoRedRed(Sibling(x)) && BlackHeight(Sibling(x)) == BlackHeight(t)
    requires Balanced(Sibling(g)) && NoRedRed(Sibling(g)) && BlackHeight(Sibling(g)) == BlackHeight(t) && IsRed(Sibling(g))
    ensures var p := Pushed(x, g, t);
            && IsRed(p) && Balanced(p) && NoRedRed(p) && BlackHeight(p) == BlackHeight(t) + 1
            && Inorder(p) == Inorder(Fill(g, Fill(x, t)))
  {
    var y, u := Fill(Change(x, Black, Sibling(x)), t), Sibling(g).(c := Black);
    assert Balanced(y) && NoRedRed(y) && BlackHeight(y) == BlackHeight(t) + 1 && Inorder(y) == Inorder(Fill(x, t));
    assert Balanced(u) && NoRedRed(u) && BlackHeight(u) == BlackHeight(t) + 1 && Inorder(u) == Inorder(Sibling(g));
  }

  lemma RotatedGood<N>(x: Ctx<N>, g: Ctx<N>, t: Tree<N>)
    requires !x.Top? && !g.Top? && x.c.Red? && g.c.Black?
    requires IsRed(t) && Balanced(t) && NoRedRed(t)
    requires Balanced(Sibling(x)) && NoRedRed(Sibling(x)) && BlackHeight(Sibling(x)) == BlackHeight(t) && !IsRed(Sibling(x))
    requires Balanced(Sibling(g)) && NoRedRed(Sibling(g)) && BlackHeight(Sibling(g)) == BlackHeight(t) && !IsRed(Sibling(g))
    ensures var r := Rotated(x, g, t);
            !IsRed(r) && Balanced(r) && NoRedRed(r) && BlackHeight(r) == BlackHeight(t) + 1
  {
    var r := Rotated(x, g, t);
    assert Balanced(r.l) && NoRedRed(r.l) && BlackHeight(r.l) == BlackHeight(t);
    assert Balanced(r.r) && NoRedRed(r.r) && BlackHeight(r.r) == BlackHeight(t);
  }

  /** The repair keeps the entries in order and restores the red-black conditions. */
  lemma {:induction false} InsFixGood<N>(x: Ctx<N>, t: Tree<N>)
    requires IsRed(t) && Balanced(t) && NoRedRed(t) && GoodCtx(x, BlackHeight(t))
    ensures RedBlack(InsFix(x, t)) && Inorder(InsFix(x, t)) == Inorder(Plug(x, t))
    decreases x
  {
    if x.Top? {
    } else if x.c.Black? || x.above.Top? {
      PlugRedBlack(x, t);
    } else {
      var g := x.above;
      CtxStep(x, BlackHeight(t));
      CtxStep(g, BlackHeight(t));
      InorderPlug(g.above, Fill(g, Fill(x, t)));
      if IsRed(Sibling(g)) {
        PushedGood(x, g, t);
        InsFixGood(g.above, Pushed(x, g, t));
        InorderPlug(g.above, Pushed(x, g, t));
      } else {
        RotatedGood(x, g, t);
        PlugRedBlack(g.above, Rotated(x, g, t));
        InorderPlug(g.above, Rotated(x, g, t));
        RotatedInorder(x, g, t);
      }
    }
  }

  /** Two shapes of three entries with four subtrees. */
  lemma Regroup(a: seq<Entry>, x: Entry, b: seq<Entry>, y: Entry, c: seq<Entry>)
    ensures a + [x] + (b + [y] + c) == (a + [x] + b) + [y] + c
  {
  }

  lemma RotatedInorder<N>(x: Ctx<N>, g: Ctx<N>, t: Tree<N>)
    requires !x.Top? && !g.Top? && t.T?
    ensures Inorder(Rotated(x, g, t)) == Inorder(Fill(g, Fill(x, t)))
  {
    var i, xe, ge, te := Inorder(t), (x.key, x.data), (g.key, g.data), (t.key, t.data);
    var xs, gs, tl, tr := Inorder(Sibling(x)), Inorder(Sibling(g)), Inorder(t.l), Inorder(t.r);
    if g.InLeft? && x.InLeft? {
      Regroup(i, xe, xs, ge, gs);
    } else if g.InLeft? {
      Regroup(xs, xe, tl, te, tr);
      Regroup(xs + [xe] + tl, te, tr, ge, gs);
    } else if x.InLeft? {
      Regroup(tl, te, tr, xe, xs);
      Regroup(gs, ge, tl, te, tr + [xe] + xs);
    } else {
      Regroup(gs, ge, xs, xe, i);
    }
  }
}
