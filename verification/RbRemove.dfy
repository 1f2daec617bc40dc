// Red-black removal as a change of the surroundings of the removed node, the height bound, and
// the finite map that a tree stands for.

module RbRemove {
  import opened Common
  import opened RbSpec

  // ---- c_map_delete_fixup -----------------------------------------------------------------------------

  /** The surroundings of a hole that is one black node too low, after a red sibling was rotated
      above the parent. */
  function Lowered<N>(x: Ctx<N>): Ctx<N>
    requires !x.Top? && IsRed(Sibling(x))
  {
    var w := Sibling(x);
    if x.InLeft? then InLeft(x.n, x.key, x.data, Red, w.l, InLeft(w.n, w.key, w.data, Black, w.r, x.above))
    else InRight(w.r, x.n, x.key, x.data, Red, InRight(w.l, w.n, w.key, w.data, Black, x.above))
  }

  /** Nephews of the hole: near and far child of the (black) sibling. */
  function Near<N>(x: Ctx<N>): Tree<N>
    requires !x.Top? && Sibling(x).T?
  {
    if x.InLeft? then x.r.l else x.l.r
  }

  function Far<N>(x: Ctx<N>): Tree<N>
    requires !x.Top? && Sibling(x).T?
  {
    if x.InLeft? then x.r.r else x.l.l
  }

  /** Both nephews black: the sibling turns red and the parent gets colour `c`. */
  function Recoloured<N>(x: Ctx<N>, c: Color): Ctx<N>
    requires !x.Top? && Sibling(x).T?
  {
    Change(x, c, Sibling(x).(c := Red))
  }

  /** A red nephew: one or two rotations move a black node to the side of the hole. */
  function Turned<N>(x: Ctx<N>): Ctx<N>
    requires !x.Top? && Sibling(x).T? && (IsRed(Near(x)) || Far(x).T?)
  {
    var w, m := Sibling(x), Near(x);
    if x.InLeft? then
      if IsRed(w.r) || !IsRed(m)
      then InLeft(x.n, x.key, x.data, Black, w.l, InLeft(w.n, w.key, w.data, x.c, w.r.(c := Black), x.above))
      else InLeft(x.n, x.key, x.data, Black, m.l,
                  InLeft(m.n, m.key, m.data, x.c, T(m.r, w.n, w.key, w.data, Black, w.r), x.above))
    else
      if IsRed(w.l) || !IsRed(m)
      then InRight(w.r, x.n, x.key, x.data, Black, InRight(w.l.(c := Black), w.n, w.key, w.data, x.c, x.above))
      else InRight(m.r, x.n, x.key, x.data, Black,
                   InRight(T(w.l, w.n, w.key, w.data, Black, m.l), m.n, m.key, m.data, x.c, x.above))
  }

  predicate RedNephew<N>(x: Ctx<N>)
    requires !x.Top? && Sibling(x).T?
  {
    IsRed(Near(x)) || IsRed(Far(x))
  }

  /** The surroundings of the hole when c_map_delete_fixup is done. */
  function DelFix<N>(x: Ctx<N>): Ctx<N>
    decreases x
  {
    if x.Top? || Sibling(x).E? then x
    else if IsRed(Sibling(x)) then
      var y := Lowered(x);
      if Sibling(y).E? then y else if RedNephew(y) then Turned(y) else Recoloured(y, Black)
    else if RedNephew(x) then Turned(x)
    else if x.c.Red? then Recoloured(x, Black)
    else Above(Recoloured(x, Black), DelFix(x.above))
  }

  function Above<N>(x: Ctx<N>, a: Ctx<N>): Ctx<N>
    requires !x.Top?
  {
    if x.InLeft? then InLeft(x.n, x.key, x.data, x.c, x.r, a) else InRight(x.l, x.n, x.key, x.data, x.c, a)
  }

  /** A context whose hole takes a tree one black node lower than before. */
  lemma {:induction false} DelFixGood<N>(x: Ctx<N>, h: nat)
    requires GoodCtx(x, h + 1)
    ensures GoodCtx(DelFix(x), h)
    ensures Before(DelFix(x)) == Before(x) && After(DelFix(x)) == After(x)
    ensures x.Top? <==> DelFix(x).Top?
    decreases x
  {
    if !x.Top? {
      CtxStep(x, h + 1);
      SiblingNode(x, h);
      if IsRed(Sibling(x)) {
        LoweredGood(x, h);
        var y := Lowered(x);
        CtxStep(y, h + 1);
        SiblingNode(y, h);
        if RedNephew(y) { TurnedGood(y, h); } else { RecolouredGood(y, h); }
      } else if RedNephew(x) {
        TurnedGood(x, h);
      } else if x.c.Red? {
        RecolouredGood(x, h);
      } else {
        DelFixGood(x.above, h + 1);
        RecolouredUp(x, h);
      }
    }
  }

  /** The sibling of a hole that is too low is a node. */
  lemma SiblingNode<N>(x: Ctx<N>, h: nat)
    requires !x.Top? && BlackHeight(Sibling(x)) == h + 1
    ensures Sibling(x).T?
  {
  }

  lemma LoweredGood<N>(x: Ctx<N>, h: nat)
    requires GoodCtx(x, h + 1) && !x.Top? && IsRed(Sibling(x))
    ensures GoodCtx(Lowered(x), h + 1) && !Lowered(x).Top? && Lowered(x).c.Red? && !IsRed(Sibling(Lowered(x)))
    ensures Before(Lowered(x)) == Before(x) && After(Lowered(x)) == After(x)
  {
    CtxStep(x, h + 1);
    var w := Sibling(x);
    assert x.c.Black?;
    assert BlackHeight(w.l) == h + 1 && BlackHeight(w.r) == h + 1;
    var a := Lowered(x).above;
    assert CBalanced(a, h + 1) && CNoRedRed(a) && RootBlack(a);
  }

  /** The conditions on a rotated or recoloured surrounding, level by level. */
  lemma CtxBuild<N>(x: Ctx<N>, h: nat)
    requires !x.Top? && Balanced(Sibling(x)) && NoRedRed(Sibling(x)) && BlackHeight(Sibling(x)) == h
    requires GoodCtx(x.above, h + Weight(x.c))
    requires x.c.Red? ==> !IsRed(Sibling(x)) && !CRed(x.above)
    requires x.above.Top? ==> x.c.Black?
    ensures GoodCtx(x, h)
  {
  }

  lemma TurnedShape<N>(x: Ctx<N>, h: nat)
    requires !x.Top? && Sibling(x).T? && !IsRed(Sibling(x)) && RedNephew(x)
    requires Balanced(Sibling(x)) && NoRedRed(Sibling(x)) && BlackHeight(Sibling(x)) == h + 1
    ensures var y := Turned(x);
            && !y.Top? && y.c.Black? && Balanced(Sibling(y)) && NoRedRed(Sibling(y)) && BlackHeight(Sibling(y)) == h
            && !y.above.Top? && y.above.c == x.c && y.above.above == x.above
            && Balanced(Sibling(y.above)) && NoRedRed(Sibling(y.above)) && BlackHeight(Sibling(y.above)) == h + 1
            && !IsRed(Sibling(y.above))
  {
    var w := Sibling(x);
    assert BlackHeight(w.l) == h && BlackHeight(w.r) == h;
  }

  lemma TurnedGood<N>(x: Ctx<N>, h: nat)
    requires GoodCtx(x, h + 1) && !x.Top? && Sibling(x).T? && !IsRed(Sibling(x)) && RedNephew(x)
    ensures GoodCtx(Turned(x), h) && !Turned(x).Top?
    ensures Before(Turned(x)) == Before(x) && After(Turned(x)) == After(x)
  {
    hide Before, After, Inorder, Turned, Balanced, NoRedRed;
    CtxStep(x, h + 1);
    TurnedShape(x, h);
    AboveGood(x, h + 1);
    CtxBuild(Turned(x).above, h + 1);
    CtxBuild(Turned(x), h);
    TurnedOrder(x);
  }

  lemma AboveGood<N>(x: Ctx<N>, h: nat)
    requires GoodCtx(x, h) && !x.Top?
    ensures GoodCtx(x.above, h + Weight(x.c)) && (x.above.Top? ==> x.c.Black?)
  {
  }

  lemma TurnedOrder<N>(x: Ctx<N>)
    requires !x.Top? && Sibling(x).T? && RedNephew(x)
    ensures Before(Turned(x)) == Before(x) && After(Turned(x)) == After(x)
  {
    var w, m := Sibling(x), Near(x);
    var xe, we, b, a := [(x.key, x.data)], [(w.key, w.data)], Before(x.above), After(x.above);
    var wl, wr := Inorder(w.l), Inorder(w.r);
    if x.InLeft? {
      if IsRed(w.r) {
        Regroup(xe, wl, we, wr, a);
      } else {
        var me, ml, mr := [(m.key, m.data)], Inorder(m.l), Inorder(m.r);
        RegroupNear(xe, ml, me, mr, we, wr, a);
      }
    } else {
      if IsRed(w.l) {
        Regroup(b, wl, we, wr, xe);
      } else {
        var me, ml, mr := [(m.key, m.data)], Inorder(m.l), Inorder(m.r);
        RegroupNear(b, wl, we, ml, me, mr, xe);
      }
    }
  }

  lemma Regroup(p: seq<Entry>, q: seq<Entry>, r: seq<Entry>, s: seq<Entry>, t: seq<Entry>)
    ensures p + q + (r + s + t) == p + (q + r + s) + t == (p + q + r) + s + t
  {
  }

  lemma RegroupNear(p: seq<Entry>, q: seq<Entry>, r: seq<Entry>, s: seq<Entry>, t: seq<Entry>, u: seq<Entry>, v: seq<Entry>)
    ensures p + q + (r + (s + t + u) + v) == p + ((q + r + s) + t + u) + v
    ensures (p + (q + r + s) + t) + u + v == p + (q + r + (s + t + u)) + v
  {
  }

  lemma RecolouredGood<N>(x: Ctx<N>, h: nat)
    requires GoodCtx(x, h + 1) && !x.Top? && x.c.Red? && Sibling(x).T? && !IsRed(Sibling(x)) && !RedNephew(x)
    ensures GoodCtx(Recoloured(x, Black), h)
    ensures Before(Recoloured(x, Black)) == Before(x) && After(Recoloured(x, Black)) == After(x)
  {
    CtxStep(x, h + 1);
    AboveGood(x, h + 1);
    CtxBuild(Recoloured(x, Black), h);
  }

  lemma RecolouredUp<N>(x: Ctx<N>, h: nat)
    requires GoodCtx(x, h + 1) && !x.Top? && x.c.Black? && Sibling(x).T? && !IsRed(Sibling(x)) && !RedNephew(x)
    requires GoodCtx(DelFix(x.above), h + 1) && (x.above.Top? <==> DelFix(x.above).Top?)
    requires Before(DelFix(x.above)) == Before(x.above) && After(DelFix(x.above)) == After(x.above)
    ensures var y := Above(Recoloured(x, Black), DelFix(x.above));
            GoodCtx(y, h) && Before(y) == Before(x) && After(y) == After(x)
  {
    CtxStep(x, h + 1);
    CtxBuild(Above(Recoloured(x, Black), DelFix(x.above)), h);
  }

  // ---- height -------------------------------------------------------------------------------------------

  function Height<N>(t: Tree<N>): nat {
    if t.E? then 0 else 1 + if Height(t.l) > Height(t.r) then Height(t.l) else Height(t.r)
  }

  function Size<N>(t: Tree<N>): nat { if t.E? then 0 else Size(t.l) + 1 + Size(t.r) }

  lemma {:induction false} BlackHeightBounds<N>(t: Tree<N>)
    requires Balanced(t) && NoRedRed(t)
    ensures Pow2(BlackHeight(t)) <= Size(t) + 1
    ensures Height(t) <= 2 * BlackHeight(t) + if IsRed(t) then 1 else 0
  {
    if t.T? {
      BlackHeightBounds(t.l);
      BlackHeightBounds(t.r);
    }
  }

  lemma {:induction false} PowSquare(a: nat, k: nat)
    requires k <= 2 * a
    ensures Pow2(k) <= Pow2(a) * Pow2(a)
  {
    if a > 0 {
      PowSquare(a - 1, if k < 2 then 0 else k - 2);
      assert Pow2(a) * Pow2(a) == 4 * (Pow2(a - 1) * Pow2(a - 1));
      assert k >= 2 ==> Pow2(k) == 2 * Pow2(k - 1) == 4 * Pow2(k - 2);
    }
  }

  /** A red-black tree with n nodes is at most 2 * log2(n + 1) high. */
  lemma HeightBound<N>(t: Tree<N>)
    requires RedBlack(t)
    ensures Pow2(Height(t)) <= (Size(t) + 1) * (Size(t) + 1)
  {
    BlackHeightBounds(t);
    PowSquare(BlackHeight(t), Height(t));
    var a, b := Pow2(BlackHeight(t)), Size(t) + 1;
    assert a * a <= b * b by { MulLe(a, a, b); MulLe(b, a, b); }
  }

  lemma MulLe(c: nat, a: nat, b: nat)
    requires a <= b
    ensures c * a <= c * b && a * c <= b * c
  {
  }

  // ---- the map ------------------------------------------------------------------------------------------

  ghost predicate Ascending(s: seq<Entry>) { forall i, j :: 0 <= i < j < |s| ==> s[i].0 < s[j].0 }

  ghost predicate HasKey(s: seq<Entry>, k: int) { exists i :: 0 <= i < |s| && s[i].0 == k }

  /** The map that a list of entries stands for. */
  function ToMap(s: seq<Entry>): map<int, int> {
    if s == [] then map[] else ToMap(s[..|s| - 1])[s[|s| - 1].0 := s[|s| - 1].1]
  }

  lemma {:induction false} ToMapAt(s: seq<Entry>)
    requires Ascending(s)
    ensures forall i :: 0 <= i < |s| ==> s[i].0 in ToMap(s) && ToMap(s)[s[i].0] == s[i].1
    ensures forall k :: k in ToMap(s) ==> HasKey(s, k)
    ensures |ToMap(s)| == |s|
  {
    if s != [] {
      var p, e := s[..|s| - 1], s[|s| - 1];
      ToMapAt(p);
      forall k | k in ToMap(p) ensures HasKey(s, k) && k != e.0 {
        var i :| 0 <= i < |p| && p[i].0 == k;
        assert s[i].0 == k;
      }
    }
  }

  /** Maps with the same entries are equal. */
  lemma ToMapIs(s: seq<Entry>, m: map<int, int>)
    requires Ascending(s)
    requires forall i :: 0 <= i < |s| ==> s[i].0 in m && m[s[i].0] == s[i].1
    requires forall k :: k in m ==> HasKey(s, k)
    ensures ToMap(s) == m
  {
    ToMapAt(s);
    forall k | k in m ensures k in ToMap(s) && ToMap(s)[k] == m[k] {
      var i :| 0 <= i < |s| && s[i].0 == k;
    }
    forall k | k in ToMap(s) ensures k in m {
      var i :| 0 <= i < |s| && s[i].0 == k;
    }
    assert ToMap(s) == m;
  }

  /** Adding an entry between smaller and larger keys. */
  lemma MapInsert(a: seq<Entry>, e: Entry, b: seq<Entry>)
    requires Ascending(a + b)
    requires (forall i :: 0 <= i < |a| ==> a[i].0 < e.0) && (forall i :: 0 <= i < |b| ==> e.0 < b[i].0)
    ensures Ascending(a + [e] + b) && e.0 !in ToMap(a + b)
    ensures ToMap(a + [e] + b) == ToMap(a + b)[e.0 := e.1]
  {
    hide ToMap, Ascending;
    var s, t := a + b, a + [e] + b;
    Inserted(a, e, b);
    ToMapAt(s);
    var m := ToMap(s)[e.0 := e.1];
    forall i | 0 <= i < |t| ensures t[i].0 in m && m[t[i].0] == t[i].1 {
      if i != |a| { assert t[i] == s[if i < |a| then i else i - 1]; }
    }
    forall k | k in m ensures HasKey(t, k) {
      if k == e.0 { assert t[|a|].0 == k; }
      else {
        var i :| 0 <= i < |s| && s[i].0 == k;
        assert t[if i < |a| then i else i + 1].0 == k;
      }
    }
    ToMapIs(t, m);
  }

  lemma Inserted(a: seq<Entry>, e: Entry, b: seq<Entry>)
    requires Ascending(a + b)
    requires (forall i :: 0 <= i < |a| ==> a[i].0 < e.0) && (forall i :: 0 <= i < |b| ==> e.0 < b[i].0)
    ensures Ascending(a + [e] + b)
    ensures forall i :: 0 <= i < |a + b| ==> (a + b)[i].0 != e.0
  {
    var s, t := a + b, a + [e] + b;
    forall i, j | 0 <= i < j < |t| ensures t[i].0 < t[j].0 {
      if i != |a| && j != |a| {
        assert s[if i < |a| then i else i - 1].0 < s[if j < |a| then j else j - 1].0;
      }
    }
  }

  /** Taking one entry out. */
  lemma MapRemove(a: seq<Entry>, e: Entry, b: seq<Entry>)
    requires Ascending(a + [e] + b)
    ensures Ascending(a + b) && e.0 in ToMap(a + [e] + b)
    ensures ToMap(a + b) == ToMap(a + [e] + b) - {e.0}
  {
    var s, t := a + b, a + [e] + b;
    assert t[|a|] == e;
    forall i | 0 <= i < |s| ensures s[i] == t[if i < |a| then i else i + 1] {}
    forall i, j | 0 <= i < j < |s| ensures s[i].0 < s[j].0 {
      assert t[if i < |a| then i else i + 1].0 < t[if j < |a| then j else j + 1].0;
    }
    ToMapAt(t);
    var m := ToMap(t) - {e.0};
    forall i | 0 <= i < |s| ensures s[i].0 in m && m[s[i].0] == s[i].1 {
      var j := if i < |a| then i else i + 1;
      assert t[j] == s[i] && t[j].0 in ToMap(t) && t[j].0 != e.0;
    }
    forall k | k in m ensures HasKey(s, k) {
      var j :| 0 <= j < |t| && t[j].0 == k;
      assert s[if j < |a| then j else j - 1].0 == k;
    }
    ToMapIs(s, m);
  }
}
