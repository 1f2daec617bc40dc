// vm/lib/c_map.c: an ordered map kept as a red-black tree of nodes with parent pointers.
// The comparator is the order of the integers.

module RbMap {
  import opened RbSpec
  import opened RbRemove

  class Node {
    var key: int
    var data: int
    var color: Color
    var left: Node?
    var right: Node?
    var up: Node?

    /** c_map_create_node */
    constructor (key: int, data: int)
      ensures Is(this, key, data, Red, null, null, null)
    {
      this.key, this.data, color, left, right, up := key, data, Red, null, null, null;
    }
  }

  // ---- what the pointers say ----------------------------------------------------------------------------

  ghost function Refs(t: Tree<Node>): set<Node> {
    if t.E? then {} else Refs(t.l) + {t.n} + Refs(t.r)
  }

  ghost function CRefs(x: Ctx<Node>): set<Node> {
    if x.Top? then {} else {x.n} + Refs(Sibling(x)) + CRefs(x.above)
  }

  ghost predicate Distinct(t: Tree<Node>) {
    t.T? ==> Distinct(t.l) && Distinct(t.r) && Refs(t.l) !! Refs(t.r) && t.n !in Refs(t.l) && t.n !in Refs(t.r)
  }

  ghost predicate CDistinct(x: Ctx<Node>) {
    x.Top? || (Distinct(Sibling(x)) && CDistinct(x.above) && Refs(Sibling(x)) !! CRefs(x.above)
               && x.n !in Refs(Sibling(x)) && x.n !in CRefs(x.above))
  }

  function Root(t: Tree<Node>): Node? { if t.E? then null else t.n }

  function Up(x: Ctx<Node>): Node? { if x.Top? then null else x.n }

  ghost predicate Is(n: Node, key: int, data: int, c: Color, left: Node?, right: Node?, up: Node?)
    reads n
  {
    n.key == key && n.data == data && n.color == c && n.left == left && n.right == right && n.up == up
  }

  ghost predicate Linked(t: Tree<Node>, up: Node?)
    reads Refs(t)
  {
    t.T? ==> Is(t.n, t.key, t.data, t.c, Root(t.l), Root(t.r), up) && Linked(t.l, t.n) && Linked(t.r, t.n)
  }

  ghost predicate CLinked(x: Ctx<Node>, child: Node?)
    reads CRefs(x)
  {
    x.Top? ||
    (Is(x.n, x.key, x.data, x.c, if x.InLeft? then child else Root(x.l), if x.InLeft? then Root(x.r) else child, Up(x.above))
     && Linked(Sibling(x), x.n) && CLinked(x.above, x.n))
  }

  function Topmost(x: Ctx<Node>, child: Node?): Node? {
    if x.Top? then child else Topmost(x.above, x.n)
  }

  /** The nodes of the tree Plug(x, t). */
  ghost function All(x: Ctx<Node>, t: Tree<Node>): set<Node> { CRefs(x) + Refs(t) }

  class Map {
    var head: Node?
    var size: nat
    ghost var tree: Tree<Node>

    /** The pointers from `head` make up the tree Plug(x, t). */
    ghost predicate Rep(x: Ctx<Node>, t: Tree<Node>)
      reads this`head, All(x, t)
    {
      && Distinct(t) && CDistinct(x) && Refs(t) !! CRefs(x)
      && Linked(t, Up(x)) && CLinked(x, Root(t)) && head == Topmost(x, Root(t))
    }

    // ---- moving the point of view -------------------------------------------------------------------------

    lemma GoUp(x: Ctx<Node>, t: Tree<Node>)
      requires Rep(x, t) && !x.Top?
      ensures Rep(x.above, Fill(x, t)) && All(x.above, Fill(x, t)) == All(x, t)
    {
    }

    lemma GoDown(x: Ctx<Node>, t: Tree<Node>)
      requires !x.Top? && Rep(x.above, Fill(x, t))
      ensures Rep(x, t) && All(x.above, Fill(x, t)) == All(x, t)
    {
    }

    lemma {:induction false} GoTop(x: Ctx<Node>, t: Tree<Node>)
      requires Rep(x, t)
      ensures Rep(Top, Plug(x, t)) && All(Top, Plug(x, t)) == All(x, t)
    {
      if !x.Top? {
        GoUp(x, t);
        GoTop(x.above, Fill(x, t));
      }
    }

    lemma {:induction false} GoTo(x: Ctx<Node>, t: Tree<Node>)
      requires Rep(Top, Plug(x, t))
      ensures Rep(x, t) && All(Top, Plug(x, t)) == All(x, t)
    {
      if !x.Top? {
        GoTo(x.above, Fill(x, t));
        GoDown(x, t);
      }
    }

    lemma RootIn(t: Tree<Node>)
      ensures t.T? ==> t.n in Refs(t)
    {
    }

    // ---- rotations ----------------------------------------------------------------------------------------

    /** The last part of a rotation: the parent of `node`, or `head`, now refers to `r`. */
    method Replace(up: Node?, node: Node, r: Node, ghost x: Ctx<Node>, ghost t: Tree<Node>)
      requires up == Up(x) && CDistinct(x) && CLinked(x, node) && head == Topmost(x, node)
      requires Linked(t, up) && Refs(t) !! CRefs(x) && Distinct(t) && Root(t) == r
      requires node !in CRefs(x) && !RootIs(x, node)
      modifies this`head, CRefs(x)
      ensures Rep(x, t)
    {
      CtxApart(x, t);
      hide Refs, CRefs, Distinct, CDistinct;
      assert !x.Top? ==> Linked(Sibling(x), x.n) && CLinked(x.above, x.n);
      if up != null {
        if up.right == node {
          up.right := r;
        } else {
          up.left := r;
        }
      }
      if node == head {
        head := r;
      }
      TopmostChange(x, node, r);
      assert CLinked(x, r);
    }

    /** The pointers between `node` and its right child change direction. */
    static method TiltLeft(node: Node, ghost t: Tree<Node>) returns (r: Node)
      requires Distinct(t) && Linked(t, node.up) && t.T? && t.n == node && t.r.T?
      modifies Refs(t)
      ensures r == t.r.n && Linked(TurnLeft(t), old(node.up))
    {
      hide Refs, Distinct;
      ghost var m := t.r.l;  // moves from r to node
      TurnLeftApart(t);
      assert Linked(t.r, node) && Linked(t.l, node);
      assert Linked(m, t.r.n) && Linked(t.r.r, t.r.n);
      assert m.T? ==> Linked(m.l, m.n) && Linked(m.r, m.n);
      r := node.right;
      var rl, up := r.left, node.up;
      r.up := up;
      r.left := node;
      node.right := rl;
      node.up := r;
      if node.right != null {
        node.right.up := node;
      }
      assert Linked(m, node) && Linked(t.r.r, r) && Linked(t.l, node);
      assert Linked(T(t.l, t.n, t.key, t.data, t.c, m), r);
    }

    static method TiltRight(node: Node, ghost t: Tree<Node>) returns (l: Node)
      requires Distinct(t) && Linked(t, node.up) && t.T? && t.n == node && t.l.T?
      modifies Refs(t)
      ensures l == t.l.n && Linked(TurnRight(t), old(node.up))
    {
      hide Refs, Distinct;
      ghost var m := t.l.r;  // moves from l to node
      TurnRightApart(t);
      assert Linked(t.l, node) && Linked(t.r, node);
      assert Linked(m, t.l.n) && Linked(t.l.l, t.l.n);
      assert m.T? ==> Linked(m.l, m.n) && Linked(m.r, m.n);
      l := node.left;
      var lr, up := l.right, node.up;
      l.up := up;
      l.right := node;
      node.left := lr;
      node.up := l;
      if node.left != null {
        node.left.up := node;
      }
      assert Linked(m, node) && Linked(t.l.l, l) && Linked(t.r, node);
      assert Linked(T(m, t.n, t.key, t.data, t.c, t.r), l);
    }

    method RotateLeft(node: Node, ghost x: Ctx<Node>, ghost t: Tree<Node>) returns (r: Node)
      requires Rep(x, t) && t.T? && t.n == node && t.r.T?
      modifies this`head, All(x, t)
      ensures r == t.r.n && Rep(x, TurnLeft(t)) && All(x, TurnLeft(t)) == All(x, t)
    {
      var up := node.up;
      TurnLeftApart(t);
      RootApart(x, t);
      assert up == Up(x) && CLinked(x, node) && Linked(t, up);
      assert allocated(CRefs(x));
      hide Distinct, CDistinct, Linked, CLinked;
      r := TiltLeft(node, t);
      assert CLinked(x, node);
      hide Refs, CRefs;
      Replace(up, node, r, x, TurnLeft(t));
    }

    method RotateRight(node: Node, ghost x: Ctx<Node>, ghost t: Tree<Node>) returns (l: Node)
      requires Rep(x, t) && t.T? && t.n == node && t.l.T?
      modifies this`head, All(x, t)
      ensures l == t.l.n && Rep(x, TurnRight(t)) && All(x, TurnRight(t)) == All(x, t)
    {
      var up := node.up;
      TurnRightApart(t);
      RootApart(x, t);
      assert up == Up(x) && CLinked(x, node) && Linked(t, up);
      assert allocated(CRefs(x));
      hide Distinct, CDistinct, Linked, CLinked;
      l := TiltRight(node, t);
      assert CLinked(x, node);
      hide Refs, CRefs;
      Replace(up, node, l, x, TurnRight(t));
    }

    /** A node changes colour. */
    method Paint(n: Node, c: Color, ghost x: Ctx<Node>, ghost t: Tree<Node>)
      requires Rep(x, t) && t.T? && t.n == n
      modifies n`color
      ensures Rep(x, t.(c := c)) && All(x, t.(c := c)) == All(x, t)
    {
      RootApart(x, t);
      PaintApart(t);
      n.color := c;
    }

    /** A child of the node in the hole changes colour. */
    method PaintChild(n: Node, c: Color, ghost left: bool, ghost x: Ctx<Node>, ghost t: Tree<Node>)
      requires Rep(x, t) && t.T? && Child(t, left).T? && Child(t, left).n == n
      modifies n`color
      ensures Rep(x, PaintedChild(t, left, c)) && All(x, PaintedChild(t, left, c)) == All(x, t)
    {
      ghost var y := Into(x, t, left);
      GoDown(y, Child(t, left));
      hide Rep, All;
      Paint(n, c, y, Child(t, left));
      GoUp(y, Child(t, left).(c := c));
    }

    /** What a node in the hole reads. */
    lemma Here(x: Ctx<Node>, t: Tree<Node>)
      requires Rep(x, t) && t.T?
      ensures Is(t.n, t.key, t.data, t.c, Root(t.l), Root(t.r), Up(x)) && t.n in All(x, t)
      ensures t.l.T? ==> Is(t.l.n, t.l.key, t.l.data, t.l.c, Root(t.l.l), Root(t.l.r), t.n) && t.l.n in All(x, t)
      ensures t.r.T? ==> Is(t.r.n, t.r.key, t.r.data, t.r.c, Root(t.r.l), Root(t.r.r), t.n) && t.r.n in All(x, t)
      ensures t.l.T? && t.r.T? ==> t.l.n != t.r.n
      ensures head == t.n <==> x.Top?
    {
      RootApart(x, t);
      TopmostChange(x, t.n, t.n);
      RootIn(t.l);
      RootIn(t.r);
      assert Linked(t.l, t.n) && Linked(t.r, t.n);
    }

    // ---- insertion ----------------------------------------------------------------------------------------

    /** c_map_l_l, seen from the grandparent. */
    method LeftLeft(grandparent: Node, ghost x: Ctx<Node>, ghost t: Tree<Node>)
      requires Rep(x, t) && t.T? && t.n == grandparent && t.l.T?
      modifies this`head, All(x, t)
      ensures var r := TurnRight(t); var s := r.(c := t.c, r := r.r.(c := t.l.c)); Rep(x, s) && All(x, s) == All(x, t)
    {
      hide Rep, All;
      var top := RotateRight(grandparent, x, t);
      ghost var r := TurnRight(t);
      Here(x, r);
      var c1, c2 := top.color, top.right.color;
      Paint(top, c2, x, r);
      Here(x, r.(c := c2));
      PaintChild(top.right, c1, false, x, r.(c := c2));
    }

    /** c_map_r_r, seen from the grandparent. */
    method RightRight(grandparent: Node, ghost x: Ctx<Node>, ghost t: Tree<Node>)
      requires Rep(x, t) && t.T? && t.n == grandparent && t.r.T?
      modifies this`head, All(x, t)
      ensures var r := TurnLeft(t); var s := r.(c := t.c, l := r.l.(c := t.r.c)); Rep(x, s) && All(x, s) == All(x, t)
    {
      hide Rep, All;
      var top := RotateLeft(grandparent, x, t);
      ghost var r := TurnLeft(t);
      Here(x, r);
      var c1, c2 := top.color, top.left.color;
      Paint(top, c2, x, r);
      Here(x, r.(c := c2));
      PaintChild(top.left, c1, true, x, r.(c := c2));
    }

    /** c_map_l_r: the parent `p` is rotated below its right child. */
    method LeftRight(parent: Node, ghost x: Ctx<Node>, ghost p: Tree<Node>)
      requires Rep(x, p) && x.InLeft? && p.T? && p.n == parent && p.r.T?
      modifies this`head, All(x, p)
      ensures var s := Rotated(InRight(p.l, p.n, p.key, p.data, p.c, x), x, p.r);
              Rep(x.above, s) && All(x.above, s) == All(x, p)
    {
      hide Rep, All;
      var top := RotateLeft(parent, x, p);
      ghost var q := TurnLeft(p);
      Here(x, q);
      GoUp(x, q);
      Here(x.above, Fill(x, q));
      LeftLeft(top.up, x.above, Fill(x, q));
    }

    /** c_map_r_l */
    method RightLeft(parent: Node, ghost x: Ctx<Node>, ghost p: Tree<Node>)
      requires Rep(x, p) && x.InRight? && p.T? && p.n == parent && p.l.T?
      modifies this`head, All(x, p)
      ensures var s := Rotated(InLeft(p.n, p.key, p.data, p.c, p.r, x), x, p.l);
              Rep(x.above, s) && All(x.above, s) == All(x, p)
    {
      hide Rep, All;
      var top := RotateRight(parent, x, p);
      ghost var q := TurnRight(p);
      Here(x, q);
      GoUp(x, q);
      Here(x.above, Fill(x, q));
      RightRight(top.up, x.above, Fill(x, q));
    }

    /** Parent, uncle and grandparent change colour. */
    method Push(uncle: Node, parent: Node, grandparent: Node, ghost x: Ctx<Node>, ghost t: Tree<Node>)
      requires Rep(x, t) && !x.Top? && !x.above.Top? && IsRed(Sibling(x.above))
      requires parent == x.n && grandparent == x.above.n && uncle == Sibling(x.above).n
      modifies All(x, t)
      ensures var g := x.above; Rep(g.above, Pushed(x, g, t)) && All(g.above, Pushed(x, g, t)) == All(x, t)
    {
      ghost var g := x.above;
      ghost var p := Fill(x, t);
      ghost var s := Fill(g, p);
      GoUp(x, t);
      GoUp(g, p);
      Here(g.above, s);
      hide Rep, All;
      PaintChild(uncle, Black, !g.InLeft?, g.above, s);
      s := PaintedChild(s, !g.InLeft?, Black);
      PaintChild(parent, Black, g.InLeft?, g.above, s);
      s := PaintedChild(s, g.InLeft?, Black);
      Paint(grandparent, Red, g.above, s);
    }

    /** c_map_fix_colors */
    method FixColors(node: Node, ghost x: Ctx<Node>, ghost t: Tree<Node>)
      requires Rep(x, t) && t.T? && t.n == node
      modifies this`head, All(x, t)
      ensures Rep(Top, InsFix(x, t)) && All(Top, InsFix(x, t)) == All(x, t)
      decreases x
    {
      hide Rep, All, Linked;
      Here(x, t);
      if node == head {
        Paint(node, Black, x, t);
        return;
      }
      ghost var p := Fill(x, t);
      GoUp(x, t);
      Here(x.above, p);
      if node.up.color == Black && node.up != head {
        GoTop(x, t);
        return;
      }
      var parent, grandparent := node.up, node.up.up;
      if parent.up == null {
        GoTop(x, t);
        return;
      }
      ghost var g := x.above;
      ghost var s := Fill(g, p);
      GoUp(g, p);
      Here(g.above, s);
      var uncle := if grandparent.left == parent then grandparent.right else grandparent.left;
      assert uncle == Root(Sibling(g)) && (uncle != null ==> uncle.color == Sibling(g).c);
      if uncle != null && uncle.color == Red {
        Push(uncle, parent, grandparent, x, t);
        FixColors(grandparent, g.above, Pushed(x, g, t));
      } else {
        if parent == grandparent.left && node == parent.left {
          LeftLeft(grandparent, g.above, s);
        } else if parent == grandparent.left && node == parent.right {
          LeftRight(parent, g, p);
        } else if parent == grandparent.right && node == parent.left {
          RightLeft(parent, g, p);
        } else if parent == grandparent.right && node == parent.right {
          RightRight(grandparent, g.above, s);
        }
        GoTop(g.above, Rotated(x, g, t));
      }
    }

    // ---- the map ------------------------------------------------------------------------------------------

    ghost predicate Valid()
      reads this, All(Top, tree)
    {
      Rep(Top, tree) && RedBlack(tree) && Ascending(Inorder(tree)) && Size(tree) <= size
    }

    ghost function Contents(): map<int, int>
      reads this
    {
      ToMap(Inorder(tree))
    }

    /** c_map_new */
    constructor ()
      ensures Valid() && Contents() == map[] && size == 0 && All(Top, tree) == {}
    {
      head, size, tree := null, 0, E;
    }

    /** A node without children goes into an empty hole. */
    method Hang(up: Node, node: Node, left: bool, ghost y: Ctx<Node>)
      requires Rep(y, E) && !y.Top? && up == y.n && left == y.InLeft? && node !in CRefs(y)
      requires node.left == null && node.right == null
      modifies up, node
      ensures var t := T(E, node, old(node.key), old(node.data), old(node.color), E);
              Rep(y, t) && All(y, t) == All(y, E) + {node}
    {
      ghost var t := T(E, node, node.key, node.data, node.color, E);
      assert Refs(t) == {node} && Distinct(t);
      CtxApart(y, t);
      TopmostChange(y, node, node);
      hide Refs, CRefs, Distinct, CDistinct;
      assert Linked(Sibling(y), y.n) && CLinked(y.above, y.n);
      if left {
        up.left := node;
      } else {
        up.right := node;
      }
      node.up := up;
      assert Linked(Sibling(y), y.n) && CLinked(y.above, y.n);
      assert Linked(t, up);
      assert Is(y.n, y.key, y.data, y.c, if y.InLeft? then node else Root(y.l), if y.InLeft? then Root(y.r) else node, Up(y.above));
      assert CLinked(y, node);
      assert head == Topmost(y, node);
    }

    /** The new node is joined to its parent and the colours are repaired. */
    method Join(up: Node, node: Node, left: bool, ghost y: Ctx<Node>)
      requires Rep(y, E) && Plug(y, E) == tree && RedBlack(tree) && Ascending(Inorder(tree)) && Size(tree) < size
      requires !y.Top? && up == y.n && left == y.InLeft? && node !in CRefs(y)
      requires Is(node, node.key, node.data, Red, null, null, null) && Between(y, node.key)
      modifies this`head, this`tree, All(y, E), node
      ensures Valid() && All(Top, tree) == All(y, E) + {node}
      ensures old(node.key) !in old(Contents()) && Contents() == old(Contents())[old(node.key) := old(node.data)]
    {
      ghost var t: Tree<Node> := T(E, node, node.key, node.data, Red, E);
      Joined(y, t);
      hide Rep, All, Between, Inorder, RedBlack, Ascending, ToMap, InsFix, CRefs, Size;
      Hang(up, node, left, y);
      FixColors(node, y, t);
      tree := InsFix(y, t);
    }

    /** One black node is a map. */
    lemma Single(node: Node)
      requires head == node && Is(node, node.key, node.data, Black, null, null, null) && size >= 1
      requires tree == T(E, node, node.key, node.data, Black, E)
      ensures Valid() && Contents() == map[node.key := node.data] && All(Top, tree) == {node}
    {
      assert Inorder(tree) == [(node.key, node.data)];
      var e := (node.key, node.data);
      var none: seq<Entry> := [];
      assert [e][..0] == none;
      assert Refs(tree) == {node};
      assert ToMap([e]) == ToMap([])[e.0 := e.1];
      assert Linked(tree.l, node) && Linked(tree.r, node);
      assert Refs(tree) !! CRefs(Top);
    }

    /** The first node becomes the head. */
    method First(node: Node)
      requires head == null && Is(node, node.key, node.data, Red, null, null, null) && size >= 1
      modifies this`head, this`tree, node
      ensures Valid() && Contents() == map[old(node.key) := old(node.data)] && All(Top, tree) == {node}
    {
      head := node;
      head.color := Black;
      tree := T(E, node, node.key, node.data, Black, E);
      Single(node);
    }

    lemma AtTop(key: int)
      requires Valid()
      ensures Rep(Top, tree) && Between(Top, key) && head == Root(tree)
      ensures head == null ==> tree == E && Contents() == map[] && All(Top, tree) == {}
    {
    }

    lemma NoHead()
      requires Valid() && head == null
      ensures tree == E && Contents() == map[]
    {
    }

    /** One step of a search for `key`. */
    lemma Look(x: Ctx<Node>, t: Tree<Node>, key: int)
      requires Rep(x, t) && t.T? && Plug(x, t) == tree && Between(x, key) && Ascending(Inorder(tree))
      ensures Is(t.n, t.key, t.data, t.c, Root(t.l), Root(t.r), Up(x)) && t.n in All(x, t)
      ensures key == t.key ==> key in Contents() && Contents()[key] == t.data && Rep(Top, tree)
      ensures key != t.key ==>
                var left := key < t.key; var y, u := Into(x, t, left), Child(t, left);
                Rep(y, u) && Between(y, key) && All(y, u) == All(x, t) && Plug(y, u) == tree && CRefs(y) <= All(y, u)
    {
      Here(x, t);
      InorderPlug(x, t);
      GoTop(x, t);
      if key == t.key {
        Present(x, t);
      } else {
        BetweenStep(x, t, key);
        GoDown(Into(x, t, key < t.key), Child(t, key < t.key));
      }
    }

    /** c_map_insert */
    method Insert(key: int, data: int) returns (ok: bool)
      requires Valid()
      modifies this, All(Top, tree)
      ensures Valid() && size == old(size) + 1
      ensures ok <==> key !in old(Contents())
      ensures Contents() == if ok then old(Contents())[key := data] else old(Contents())
      ensures !ok ==> tree == old(tree)
      ensures fresh(All(Top, tree) - old(All(Top, tree)))
    {
      hide Rep, All, Inorder, RedBlack, Ascending, ToMap, CRefs, Between, Size, InsFix;
      assert allocated(All(Top, tree));
      AtTop(key);
      var node := new Node(key, data);
      size := size + 1;
      if head == null {
        First(node);
        return true;
      }
      var cur := head;
      ghost var x, t: Tree<Node> := Top, tree;
      while true
        invariant Rep(x, t) && t.T? && t.n == cur && Plug(x, t) == tree
        invariant Between(x, key) && All(x, t) == old(All(Top, tree)) && tree == old(tree) && size == old(size) + 1
        invariant Is(node, key, data, Red, null, null, null)
        decreases t
      {
        Look(x, t, key);
        if key == cur.key {
          return false;
        }
        ghost var y := Into(x, t, key < cur.key);
        if key < cur.key {
          if cur.left == null {
            Join(cur, node, true, y);
            return true;
          }
          cur, x, t := cur.left, y, t.l;
        } else {
          if cur.right == null {
            Join(cur, node, false, y);
            return true;
          }
          cur, x, t := cur.right, y, t.r;
        }
      }
    }

    /** c_map_find: the node that holds `key`. */
    method Find(key: int) returns (cur: Node?)
      requires Valid()
      ensures cur == null <==> key !in Contents()
      ensures cur != null ==> cur in All(Top, tree) && cur.key == key && cur.data == Contents()[key]
    {
      if head == null {
        NoHead();
        return null;
      }
      hide Rep, All, Inorder, RedBlack, Ascending, ToMap;
      cur := head;
      ghost var x, t: Tree<Node> := Top, tree;
      while true
        invariant Rep(x, t) && t.T? && cur == t.n && Plug(x, t) == tree
        invariant Between(x, key) && All(x, t) == All(Top, tree)
        decreases t
      {
        Look(x, t, key);
        if key == cur.key {
          break;
        }
        ghost var y := Into(x, t, key < cur.key);
        if key < cur.key {
          if cur.left == null {
            Missing(y, key);
            return null;
          }
          cur, x, t := cur.left, y, t.l;
        } else {
          if cur.right == null {
            Missing(y, key);
            return null;
          }
          cur, x, t := cur.right, y, t.r;
        }
      }
    }

    // ---- removal ------------------------------------------------------------------------------------------

    method Rotate(node: Node, toLeft: bool, ghost x: Ctx<Node>, ghost t: Tree<Node>) returns (r: Node)
      requires Rep(x, t) && t.T? && t.n == node && Child(t, !toLeft).T?
      modifies this`head, All(x, t)
      ensures var u := if toLeft then TurnLeft(t) else TurnRight(t);
              r == u.n && Rep(x, u) && All(x, u) == All(x, t)
    {
      if toLeft {
        r := RotateLeft(node, x, t);
      } else {
        r := RotateRight(node, x, t);
      }
    }

    /** A red sibling `w` is rotated above the parent `p`: its new sibling is `v`. */
    method RedSibling(p: Node, w: Node, left: bool, ghost x: Ctx<Node>, ghost t: Tree<Node>) returns (q: Node, v: Node?)
      requires Rep(x, t) && !x.Top? && IsRed(Sibling(x)) && left == x.InLeft? && p == x.n && w == Sibling(x).n
      modifies this`head, All(x, t)
      ensures var y := Lowered(x); Rep(y, t) && All(y, t) == All(x, t) && q == y.n && v == Root(Sibling(y))
    {
      ghost var s := Fill(x, t);
      ghost var y := Lowered(x);
      GoUp(x, t);
      Here(x.above, s);
      hide Rep, All;
      PaintChild(w, Black, !left, x.above, s);
      s := PaintedChild(s, !left, Black);
      Paint(p, Red, x.above, s);
      s := s.(c := Red);
      var r := Rotate(p, left, x.above, s);
      s := if left then TurnLeft(s) else TurnRight(s);
      Here(x.above, s);
      assert s == Fill(y.above, Fill(y, t));
      GoDown(y.above, Fill(y, t));
      Here(y.above, Fill(y, t));
      GoDown(y, t);
      if left {
        q := r.left;
        v := q.right;
      } else {
        q := r.right;
        v := q.left;
      }
    }

    /** The near nephew `m` is red and the far one is not: it is rotated above the sibling `w`. */
    method NearNephew(m: Node, w: Node, p: Node, left: bool, ghost x: Ctx<Node>, ghost t: Tree<Node>) returns (v: Node?)
      requires Rep(x, t) && !x.Top? && left == x.InLeft? && p == x.n
      requires Sibling(x).T? && w == Sibling(x).n && IsRed(Near(x)) && m == Near(x).n
      modifies this`head, All(x, t)
      ensures var y := Change(x, x.c, Straight(Sibling(x), left));
              Rep(y, t) && All(y, t) == All(x, t) && v == Root(Sibling(y))
    {
      ghost var s := Fill(x, t);
      ghost var xw := Into(x.above, s, !left);
      ghost var u := Sibling(x);
      GoUp(x, t);
      GoDown(xw, u);
      hide Rep, All;
      PaintChild(m, Black, left, xw, u);
      u := PaintedChild(u, left, Black);
      Paint(w, Red, xw, u);
      u := u.(c := Red);
      var r := Rotate(w, !left, xw, u);
      u := if left then TurnRight(u) else TurnLeft(u);
      ghost var y := Change(x, x.c, u);
      GoUp(xw, u);
      Here(x.above, Fill(xw, u));
      assert Fill(xw, u) == Fill(y, t);
      GoDown(y, t);
      v := if left then p.right else p.left;
    }

    /** The far nephew, when there is one, turns black and the sibling `w` is rotated above the parent. */
    method FarNephew(w: Node, p: Node, left: bool, ghost x: Ctx<Node>, ghost t: Tree<Node>)
      requires Rep(x, t) && !x.Top? && left == x.InLeft? && p == x.n
      requires Sibling(x).T? && w == Sibling(x).n && Far(x).T?
      modifies this`head, All(x, t)
      ensures Rep(Top, Plug(Swung(x), t)) && All(Top, Plug(Swung(x), t)) == All(x, t)
    {
      ghost var s := Fill(x, t);
      GoUp(x, t);
      Here(x.above, s);
      hide Rep, All;
      var c := p.color;
      PaintChild(w, c, !left, x.above, s);
      s := PaintedChild(s, !left, c);
      Paint(p, Black, x.above, s);
      s := s.(c := Black);
      ghost var xw := Into(x.above, s, !left);
      ghost var u := Child(s, !left);
      GoDown(xw, u);
      Here(xw, u);
      var f := if left then w.right else w.left;
      if f != null {
        PaintChild(f, Black, !left, xw, u);
        u := PaintedChild(u, !left, Black);
        GoUp(xw, u);
        s := Fill(xw, u);
      }
      var r := Rotate(p, left, x.above, s);
      s := if left then TurnLeft(s) else TurnRight(s);
      ghost var y := Swung(x);
      assert s == Fill(y.above, Fill(y, t));
      GoTop(x.above, s);
    }

    /** Both nephews black: the sibling `w` turns red and the hole moves to the parent `p`. */
    method MoveUp(w: Node, p: Node, left: bool, ghost x: Ctx<Node>, ghost t: Tree<Node>) returns (q: Node?, onLeft: bool)
      requires Rep(x, t) && !x.Top? && p == x.n && Sibling(x).T? && w == Sibling(x).n
      modifies All(x, t)
      ensures var u := Fill(Recoloured(x, x.c), t); var y := x.above;
              Rep(y, u) && All(y, u) == All(x, t) && q == Up(y) && (!y.Top? ==> onLeft == y.InLeft?)
    {
      onLeft := left;
      GoUp(x, t);
      Here(x.above, Fill(x, t));
      hide Rep, All;
      PaintChild(w, Red, !x.InLeft?, x.above, Fill(x, t));
      ghost var u := Fill(Recoloured(x, x.c), t);
      Here(x.above, u);
      q := p.up;
      if q != null {
        GoUp(x.above, u);
        Here(x.above.above, Fill(x.above, u));
        onLeft := p == q.left;
      }
    }

    /** A red nephew: two rotations or one. */
    method Swing(near: Node?, far: Node?, w: Node, p: Node, left: bool, ghost x: Ctx<Node>, ghost t: Tree<Node>,
                 ghost h: nat)
      requires Rep(x, t) && !x.Top? && left == x.InLeft? && p == x.n && Sibling(x).T? && w == Sibling(x).n
      requires GoodCtx(x, h + 1) && !IsRed(Sibling(x)) && RedNephew(x) && near == Root(Near(x)) && far == Root(Far(x))
      modifies this`head, All(x, t)
      ensures Rep(Top, Plug(Turned(x), t)) && All(Top, Plug(Turned(x), t)) == All(x, t)
    {
      ghost var y := Into(x.above, Fill(x, t), !left);
      GoUp(x, t);
      GoDown(y, Sibling(x));
      Here(y, Sibling(x));
      TurnStep(x, t, h);
      hide Rep, All, GoodCtx;
      if far == null || far.color == Black {
        var v := NearNephew(near, w, p, left, x, t);
        FarNephew(v, p, left, Change(x, x.c, Straight(Sibling(x), left)), t);
      } else {
        FarNephew(w, p, left, x, t);
      }
    }

    /** What the loop of c_map_delete_fixup knows: the result will be `z`. */
    ghost predicate Fixing(node: Node, p: Node?, left: bool, x: Ctx<Node>, t: Tree<Node>, h: nat, z: Tree<Node>)
      reads this`head, All(x, t)
    {
      && Rep(x, t) && t.T? && t.n == node && p == Up(x) && (!x.Top? ==> left == x.InLeft?)
      && (t.c.Black? ==> GoodCtx(x, h + 1))
      && z == Plug(if t.c.Red? then x else DelFix(x), t.(c := Black))
    }

    /** The repair ends here: the loop goes on at the root. */
    method Settle(near: Node?, far: Node?, w: Node, p: Node, left: bool, ghost x: Ctx<Node>, ghost t: Tree<Node>,
                  ghost h: nat)
      returns (node: Node, ghost u: Tree<Node>)
      requires Rep(x, t) && !x.Top? && left == x.InLeft? && p == x.n && Sibling(x).T? && w == Sibling(x).n
      requires GoodCtx(x, h + 1) && !IsRed(Sibling(x)) && RedNephew(x) && near == Root(Near(x)) && far == Root(Far(x))
      modifies this`head, All(x, t)
      ensures Fixing(node, null, left, Top, u, h, Plug(DelFix(x), t)) && All(Top, u) == All(x, t)
    {
      TurnStep(x, t, h);
      NoCtx(h + 1);
      u := Plug(Turned(x), t);
      assert u.(c := Black) == u;
      hide Rep, All, GoodCtx, Turned, Plug, RedNephew;
      Swing(near, far, w, p, left, x, t, h);
      Here(Top, u);
      node := head;
    }

    /** The rest of a round, when the sibling `w` is black. */
    method BlackSibling(w: Node, p0: Node, left0: bool, ghost x0: Ctx<Node>, ghost t0: Tree<Node>, ghost h0: nat)
      returns (node: Node, p: Node?, left: bool, ghost x: Ctx<Node>, ghost t: Tree<Node>, ghost h: nat)
      requires Rep(x0, t0) && t0.T? && t0.c.Black? && !x0.Top? && p0 == x0.n && left0 == x0.InLeft? && GoodCtx(x0, h0 + 1)
      requires Sibling(x0).T? && !IsRed(Sibling(x0)) && w == Sibling(x0).n
      modifies this`head, All(x0, t0)
      ensures Fixing(node, p, left, x, t, h, Plug(DelFix(x0), t0)) && All(x, t) == All(x0, t0)
      ensures t.c.Red? || x.Top? || (x == x0.above && x0.c.Black?)
    {
      ghost var y := Into(x0.above, Fill(x0, t0), !left0);
      GoUp(x0, t0);
      GoDown(y, Sibling(x0));
      Here(y, Sibling(x0));
      var near, far := if left0 then w.left else w.right, if left0 then w.right else w.left;
      var nc := if near == null then Black else near.color;
      var fc := if far == null then Black else far.color;
      hide Rep, All, GoodCtx, DelFix, Turned, Plug;
      if nc == Black && fc == Black {
        RecolourStep(x0, t0, h0);
        node := p0;  // the parent of the node
        p, left := MoveUp(w, p0, left0, x0, t0);
        t, x, h := Fill(Recoloured(x0, x0.c), t0), x0.above, h0 + 1;
      } else {
        node, t := Settle(near, far, w, p0, left0, x0, t0, h0);
        p, left, x, h := null, left0, Top, h0;
      }
    }

    /** One round of the loop. */
    method FixStep(node0: Node, p0: Node, left0: bool, ghost x0: Ctx<Node>, ghost t0: Tree<Node>, ghost h0: nat,
                   ghost z: Tree<Node>)
      returns (node: Node, p: Node?, left: bool, ghost x: Ctx<Node>, ghost t: Tree<Node>, ghost h: nat)
      requires Fixing(node0, p0, left0, x0, t0, h0, z) && t0.c.Black? && !x0.Top?
      modifies this`head, All(x0, t0)
      ensures Fixing(node, p, left, x, t, h, z) && All(x, t) == All(x0, t0)
      ensures t.c.Red? || Depth(x) < Depth(x0)
    {
      assert t0.(c := Black) == t0;
      TooLow(x0, h0);
      GoUp(x0, t0);
      Here(x0.above, Fill(x0, t0));
      hide Rep, All, GoodCtx;
      var w := if left0 then p0.right else p0.left;
      if w.color == Red {
        var q, v := RedSibling(p0, w, left0, x0, t0);
        LowerStep(x0, h0);
        node, p, left, x, t, h := BlackSibling(v, q, left0, Lowered(x0), t0, h0);
      } else {
        node, p, left, x, t, h := BlackSibling(w, p0, left0, x0, t0, h0);
      }
    }

    /** c_map_delete_fixup at a node that is black a second time, or red. */
    method DeleteFixup(node0: Node, p0: Node?, left0: bool, ghost x0: Ctx<Node>, ghost t0: Tree<Node>, ghost h0: nat)
      requires Rep(x0, t0) && t0.T? && t0.n == node0 && p0 == Up(x0) && left0 == x0.InLeft?
      requires GoodCtx(x0, h0 + 1)
      modifies this`head, All(x0, t0)
      ensures var z := Plug(if t0.c.Red? then x0 else DelFix(x0), t0.(c := Black));
              Rep(Top, z) && All(Top, z) == All(x0, t0)
    {
      var node, p, left := node0, p0, left0;
      ghost var x, t, h := x0, t0, h0;
      ghost var z := Plug(if t0.c.Red? then x0 else DelFix(x0), t0.(c := Black));
      Here(x, t);
      hide Rep, All, GoodCtx;
      while node != head && node.color == Black
        invariant Fixing(node, p, left, x, t, h, z) && All(x, t) == All(x0, t0)
        invariant node in All(x, t) && node.color == t.c && (head == node <==> x.Top?)
        decreases if t.c.Red? then 0 else Depth(x)
      {
        node, p, left, x, t, h := FixStep(node, p, left, x, t, h, z);
        Here(x, t);
      }
      Paint(node, Black, x, t);
      GoTop(x, t.(c := Black));
    }

    /** The parent of the hole, or `head`, refers to `child` in place of `y`. */
    method Relink(up: Node?, y: Node, child: Node?, ghost x: Ctx<Node>, ghost s: Tree<Node>) returns (left: bool)
      requires up == Up(x) && CDistinct(x) && CLinked(x, y) && head == Topmost(x, y)
      requires Linked(s, up) && Refs(s) !! CRefs(x) && Distinct(s) && Root(s) == child
      requires y !in CRefs(x) && !RootIs(x, y)
      modifies this`head, CRefs(x)
      ensures Rep(x, s) && left == x.InLeft?
    {
      CtxApart(x, s);
      hide Refs, CRefs, Distinct, CDistinct;
      assert !x.Top? ==> Linked(Sibling(x), x.n) && CLinked(x.above, x.n);
      left := false;
      if up == null {
        head := child;
      } else if y == up.left {
        up.left := child;
        left := true;
      } else {
        up.right := child;
      }
      TopmostNode(x, y, child);
      assert CLinked(x, child);
    }

    /** `y` leaves the tree, its only child takes its place. */
    method Detach(y: Node, child: Node?, ghost x: Ctx<Node>, ghost t: Tree<Node>, ghost s: Tree<Node>) returns (left: bool)
      requires Rep(x, t) && OneChild(t) && t.n == y && s == Only(t) && child == Root(s)
      modifies this`head, All(x, t) - {y}
      ensures Rep(x, s) && All(x, s) == All(x, t) - {y} && left == x.InLeft?
    {
      RootApart(x, t);
      DetachApart(t, s);
      Here(x, t);
      assert allocated(CRefs(x));
      hide Distinct, CDistinct, Linked, CLinked;
      if child != null {
        MoveRoot(s, y, child, y.up);
      }
      assert Linked(s, y.up) by { EmptyLinked(s, y.up); }
      assert CLinked(x, y);
      left := Relink(y.up, y, child, x, s);
    }

    /** A subtree gets another parent. */
    method MoveRoot(ghost s: Tree<Node>, ghost from: Node, child: Node, to: Node?)
      requires s.T? && s.n == child && Distinct(s) && Linked(s, from)
      modifies child
      ensures Linked(s, to)
    {
      RootIn(s);
      assert Linked(s.l, s.n) && Linked(s.r, s.n);
      child.up := to;
      assert Linked(s.l, s.n) && Linked(s.r, s.n);
    }

    /** The repair after a black node above the hole has gone: without a child in the hole, a blank
        black node stands in for it meanwhile. */
    method Mend(child0: Node?, parent: Node?, left: bool, ghost x: Ctx<Node>, ghost s: Tree<Node>)
      requires Rep(x, s) && child0 == Root(s) && parent == Up(x) && left == x.InLeft?
      requires GoodCtx(x, 1) && (s.T? ==> IsRed(s)) && (s.E? ==> !x.Top?)
      modifies this`head, All(x, s)
      ensures Rep(Top, Mended(x, s)) && All(Top, Mended(x, s)) == All(x, s)
    {
      hide Rep, All, GoodCtx, CRefs, DelFix;
      assert allocated(All(x, s));
      if child0 == null {
        Parent(x, s);
        DelFixGood(x, 0);
        var doubled := new Node(0, 0);
        doubled.color := Black;
        Hang(parent, doubled, parent.left == null, x);
        ghost var t: Tree<Node> := T(E, doubled, 0, 0, Black, E);
        DeleteFixup(doubled, parent, left, x, t, 0);
        GoTo(DelFix(x), t);
        Drop(doubled, DelFix(x), t);
        GoTop(DelFix(x), E);
      } else {
        DeleteFixup(child0, parent, left, x, s, 0);
      }
    }

    /** What the parent of an empty hole reads. */
    lemma Parent(x: Ctx<Node>, s: Tree<Node>)
      requires Rep(x, s) && s.E? && !x.Top? && GoodCtx(x, 1)
      ensures x.n in All(x, s) && (x.n.left == null <==> x.InLeft?) && CRefs(x) <= All(x, s)
    {
      TooLow(x, 0);
      GoUp(x, s);
      Here(x.above, Fill(x, s));
      InAll(x, s);
    }

    /** The blank node is taken out again. */
    method Drop(d: Node, ghost x: Ctx<Node>, ghost t: Tree<Node>)
      requires Rep(x, t) && !x.Top? && t.T? && t.l.E? && t.r.E? && t.n == d
      modifies this`head, All(x, t)
      ensures Rep(x, E) && All(x, E) == All(x, t) - {d}
    {
      RootApart(x, t);
      Here(x, t);
      EmptyLinked(E, d.up);
      var left := Relink(d.up, d, null, x, E);
    }

    lemma {:induction false} Climb(x: Ctx<Node>, s: Tree<Node>)
      requires Turning(x).InLeft?
      ensures Rep(x, s) <==> Rep(Turning(x).above, TreeAt(x, s))
      ensures All(x, s) == All(Turning(x).above, TreeAt(x, s))
      ensures TreeAt(x, s).T? && TreeAt(x, s).n == Turning(x).n
    {
      if Rep(x, s) { GoUp(x, s); }
      if Rep(x.above, Fill(x, s)) { GoDown(x, s); }
      AllUp(x, s);
      if x.InRight? {
        Climb(x.above, Fill(x, s));
      }
    }

    /** Key and data move to the node where the path to the hole turned left last. */
    method Copy(node: Node, key: int, data: int, ghost x: Ctx<Node>, ghost s: Tree<Node>)
      requires Rep(x, s) && Turning(x).InLeft? && Turning(x).n == node
      modifies node`key, node`data
      ensures Rep(Retag(x, key, data), s) && All(Retag(x, key, data), s) == All(x, s)
    {
      ghost var t, y := TreeAt(x, s), Retag(x, key, data);
      Climb(x, s);
      RootApart(Turning(x).above, t);
      RetagTree(x, s, key, data);
      PaintApart(t);
      assert Linked(t.l, t.n) && Linked(t.r, t.n);
      node.key, node.data := key, data;
      assert Linked(t.l, t.n) && Linked(t.r, t.n);
      assert Rep(Turning(x).above, t.(key := key, data := data));
      Climb(y, s);
    }

    /** The rightmost node of the left subtree. */
    method Predecessor(node: Node, ghost x: Ctx<Node>, ghost t: Tree<Node>)
      returns (target: Node, ghost y: Ctx<Node>, ghost u: Tree<Node>)
      requires Rep(x, t) && t.T? && t.n == node && t.l.T?
      ensures Rep(y, u) && u.T? && u.n == target && u.r.E? && Plug(y, u) == Plug(x, t) && All(y, u) == All(x, t)
      ensures Turning(y).InLeft? && Turning(y).n == node && Turning(y).key == t.key && target != node
    {
      Here(x, t);
      target, y, u := node.left, Into(x, t, true), t.l;
      GoDown(y, u);
      hide Rep, All;
      Here(y, u);
      while target.right != null
        invariant Rep(y, u) && u.T? && target == u.n && Plug(y, u) == Plug(x, t) && All(y, u) == All(x, t)
        invariant Turning(y).InLeft? && Turning(y).n == node && Turning(y).key == t.key && target.right == Root(u.r)
        decreases u
      {
        target, y, u := target.right, Into(y, u, false), u.r;
        GoDown(y, u);
        Here(y, u);
      }
      Climb(y, u);
      Here(Turning(y).above, TreeAt(y, u));
      Here(y, u);
      NotBelow(y, u);
    }

    lemma {:induction false} NotBelow(x: Ctx<Node>, t: Tree<Node>)
      requires Rep(x, t) && t.T? && Turning(x).InLeft?
      ensures Turning(x).n in CRefs(x) && t.n !in CRefs(x)
    {
      RootApart(x, t);
      if x.InRight? {
        GoUp(x, t);
        NotBelow(x.above, Fill(x, t));
      }
    }

    /** `y` leaves the tree; when it is not `node` itself, `node` takes over its entry. `fault` is the
        null pointer that the code follows when `y` is the only node. */
    method Unlink(node: Node, y: Node, ghost x: Ctx<Node>, ghost t: Tree<Node>) returns (fault: bool)
      requires Rep(x, t) && OneChild(t) && t.n == y && RedBlack(Plug(x, t))
      requires y != node ==> Turning(x).InLeft? && Turning(x).n == node
      modifies this`head, All(x, t)
      ensures fault <==> x.Top? && Only(t).E?
      ensures var z := Result(x, t, y != node); !fault ==> Rep(Top, z) && All(Top, z) == All(x, t) - {y}
    {
      ghost var s := Only(t);
      ghost var w := x;
      Here(x, t);
      UnlinkGood(x, t);
      if y != node {
        NotBelow(x, t);
        InAll(x, t);
      }
      var child, parent := if y.left != null then y.left else y.right, y.up;
      var c, key, data := y.color, y.key, y.data;
      hide Rep, All, GoodCtx;
      var left := Detach(y, child, x, t, s);
      if y != node {
        w := Retag(x, key, data);
        Copy(node, key, data, x, s);
        RetagGood(x, key, data, 1);
      }
      fault := false;
      if c == Black {
        if child == null && parent == null {
          return true;
        }
        Mend(child, parent, left, w, s);
      } else {
        GoTop(w, s);
      }
    }

    /** The part of c_map_erase below its choice of `y`. */
    method Take(node: Node, y: Node, ghost x: Ctx<Node>, ghost t: Tree<Node>) returns (fault: bool)
      requires Valid() && Rep(x, t) && OneChild(t) && t.n == y && Plug(x, t) == tree && All(x, t) == All(Top, tree)
      requires y != node ==> Turning(x).InLeft? && Turning(x).n == node && t.r.E?
      modifies this, All(x, t)
      ensures fault <==> x.Top? && Only(t).E?
      ensures var k := if y == node then t.key else Turning(x).key;
              !fault ==> Valid() && size == old(size) - 1 && Contents() == old(Contents()) - {k}
      ensures !fault ==> All(Top, tree) == old(All(Top, tree)) - {y} && Size(tree) == old(Size(tree)) - 1
    {
      hide Rep, All, Inorder, RedBlack, Ascending, ToMap, Result;
      SizePlug(x, t);
      if !(x.Top? && Only(t).E?) {
        ResultGood(x, t, y != node);
        Erased(x, t, y != node);
      }
      fault := Unlink(node, y, x, t);
      if !fault {
        tree := Result(x, t, y != node);
        size := size - 1;
      }
    }

    /** c_map_erase at the node that an iterator names. The null pointer is followed exactly when the
        tree has one node and duplicate insertions made `size` larger than one. */
    method Erase(node: Node) returns (fault: bool)
      requires Valid() && node in All(Top, tree)
      modifies this, All(Top, tree)
      ensures fault <==> |old(Contents())| == 1 && old(size) != 1
      ensures !fault ==> Valid() && size == old(size) - 1 && Contents() == old(Contents()) - {old(node.key)}
      ensures !fault ==> All(Top, tree) <= old(All(Top, tree))
    {
      assert allocated(All(Top, tree));
      Counted();
      ghost var x, t := Locate(Top, tree, node);
      GoTo(x, t);
      Here(x, t);
      SizePlug(x, t);
      assert size == 1 && node == head ==> Size(tree) == 1 && tree.key == node.key;
      hide Rep, All, Inorder, RedBlack, Ascending, ToMap;
      if size == 1 && node == head {
        EraseLast();
        return false;
      }
      if node.left != null && node.right != null {
        var y: Node;
        y, x, t := Predecessor(node, x, t);
        SizePlug(x, t);
        fault := Take(node, y, x, t);
      } else {
        fault := Take(node, node, x, t);
      }
    }

    lemma Counted()
      requires Valid()
      ensures |Contents()| == Size(tree)
    {
      SizeInorder(tree);
      ToMapAt(Inorder(tree));
    }

    /** The only node goes. */
    method EraseLast()
      requires Valid() && Size(tree) == 1
      modifies this
      ensures Valid() && size == old(size) - 1 && Contents() == old(Contents()) - {old(tree.key)}
      ensures All(Top, tree) == {} && Size(tree) == 0
    {
      SizeInorder(tree);
      ToMapAt(Inorder(tree));
      assert Inorder(tree) == [(tree.key, tree.data)];
      head, size, tree := null, size - 1, E;
    }
  }

  /** A key inserted twice and then erased: c_map_erase follows a null pointer. */
  method DuplicateThenErase(key: int, data: int, other: int) returns (fault: bool)
    ensures fault
  {
    hide All, Inorder, RedBlack, Ascending, ToMap, Map.Rep;
    var m := new Map();
    var first := m.Insert(key, data);
    var second := m.Insert(key, other);
    assert m.Contents() == map[key := data] && allocated(All(Top, m.tree));
    var node := m.Find(key);
    fault := m.Erase(node);
  }

  /** The remaining tree stands for the map without one key. */
  lemma Erased(x: Ctx<Node>, t: Tree<Node>, moved: bool)
    requires RedBlack(Plug(x, t)) && OneChild(t) && !(x.Top? && Only(t).E?) && Ascending(Inorder(Plug(x, t)))
    requires moved ==> Turning(x).InLeft? && t.r.E?
    ensures var z := Result(x, t, moved);
            && Ascending(Inorder(z)) && Size(z) == Size(Plug(x, t)) - 1
            && ToMap(Inorder(z)) == ToMap(Inorder(Plug(x, t))) - {if moved then Turning(x).key else t.key}
  {
    var z, s := Result(x, t, moved), Plug(x, t);
    ResultGood(x, t, moved);
    InorderPlug(x, t);
    SizeInorder(z);
    SizeInorder(s);
    var b, l, e, r, a := Before(x), Inorder(t.l), (t.key, t.data), Inorder(t.r), After(x);
    if moved {
      var u := Turning(x);
      var f := (u.key, u.data);
      RetagOrder(x, t.key, t.data);
      GroupInner(b, l, e, f, Inorder(u.r), After(u.above));
      MapRemove(b + l + [e], f, Inorder(u.r) + After(u.above));
    } else {
      GroupHere(b, l, e, r, a);
      MapRemove(b + l, e, r + a);
    }
  }

  lemma GroupInner(b: seq<Entry>, l: seq<Entry>, e: Entry, f: Entry, r: seq<Entry>, a: seq<Entry>)
    ensures b + (l + [e] + []) + ([f] + r + a) == (b + l + [e]) + [f] + (r + a)
    ensures b + l + ([e] + r + a) == (b + l + [e]) + (r + a)
  {
  }

  lemma GroupHere(b: seq<Entry>, l: seq<Entry>, e: Entry, r: seq<Entry>, a: seq<Entry>)
    ensures b + (l + [e] + r) + a == (b + l) + [e] + (r + a)
    ensures l == [] ==> b + r + a == (b + l) + (r + a)
    ensures r == [] ==> b + l + a == (b + l) + (r + a)
  {
  }

  /** The place of a node. */
  lemma Locate(x0: Ctx<Node>, t0: Tree<Node>, n: Node) returns (x: Ctx<Node>, t: Tree<Node>)
    requires n in Refs(t0)
    ensures Plug(x, t) == Plug(x0, t0) && t.T? && t.n == n
    decreases t0
  {
    if n == t0.n {
      x, t := x0, t0;
    } else {
      var left := n in Refs(t0.l);
      x, t := Locate(Into(x0, t0, left), Child(t0, left), n);
    }
  }

  lemma {:induction false} SizePlug(x: Ctx<Node>, t: Tree<Node>)
    ensures Size(Plug(x, t)) >= Size(t) + if x.Top? then 0 else 1
  {
    if !x.Top? {
      SizePlug(x.above, Fill(x, t));
    }
  }

  /** The tree without the node that holds `t`, which has at most one child. */
  function Result(x: Ctx<Node>, t: Tree<Node>, moved: bool): Tree<Node>
    requires OneChild(t)
  {
    var w := if moved then Retag(x, t.key, t.data) else x;
    if t.c.Red? then Plug(w, Only(t)) else Mended(w, Only(t))
  }

  lemma UnlinkGood(x: Ctx<Node>, t: Tree<Node>)
    requires RedBlack(Plug(x, t)) && OneChild(t)
    ensures t.c.Red? ==> Only(t).E? && !x.Top? && GoodCtx(x, 0)
    ensures t.c.Black? ==> GoodCtx(x, 1)
    ensures Only(t).T? ==> IsRed(Only(t)) && Balanced(Only(t)) && NoRedRed(Only(t)) && BlackHeight(Only(t)) == 0
  {
    PlugRedBlack(x, t);
  }

  lemma {:induction false} RetagGood(x: Ctx<Node>, key: int, data: int, h: nat)
    ensures var y := Retag(x, key, data);
            (GoodCtx(x, h) <==> GoodCtx(y, h)) && y.Top? == x.Top? && Up(y) == Up(x) && y.InLeft? == x.InLeft?
    ensures CRed(Retag(x, key, data)) == CRed(x)
  {
    if x.InRight? {
      RetagGood(x.above, key, data, h + Weight(x.c));
    }
  }

  lemma {:induction false} RetagOrder(x: Ctx<Node>, key: int, data: int)
    requires Turning(x).InLeft?
    ensures var y, u := Retag(x, key, data), Turning(x);
            && Before(y) == Before(x) && After(x) == [(u.key, u.data)] + Inorder(u.r) + After(u.above)
            && After(y) == [(key, data)] + Inorder(u.r) + After(u.above)
  {
    if x.InRight? {
      RetagOrder(x.above, key, data);
    }
  }

  lemma MendedGood(x: Ctx<Node>, s: Tree<Node>)
    requires GoodCtx(x, 1) && (s.T? ==> IsRed(s) && Balanced(s) && NoRedRed(s) && BlackHeight(s) == 0) && (s.E? ==> !x.Top?)
    ensures RedBlack(Mended(x, s)) && Inorder(Mended(x, s)) == Before(x) + Inorder(s) + After(x)
  {
    if s.T? {
      PlugRedBlack(x, s.(c := Black));
      InorderPlug(x, s.(c := Black));
    } else {
      DelFixGood(x, 0);
      PlugRedBlack(DelFix(x), s);
      InorderPlug(DelFix(x), s);
    }
  }

  /** The remaining tree is red-black and lacks one entry. */
  lemma ResultGood(x: Ctx<Node>, t: Tree<Node>, moved: bool)
    requires RedBlack(Plug(x, t)) && OneChild(t) && !(x.Top? && Only(t).E?)
    requires moved ==> Turning(x).InLeft? && t.r.E?
    ensures RedBlack(Result(x, t, moved))
    ensures var w := if moved then Retag(x, t.key, t.data) else x;
            Inorder(Result(x, t, moved)) == Before(w) + Inorder(Only(t)) + After(w)
  {
    var w := if moved then Retag(x, t.key, t.data) else x;
    UnlinkGood(x, t);
    RetagGood(x, t.key, t.data, 0);
    RetagGood(x, t.key, t.data, 1);
    if t.c.Red? {
      PlugRedBlack(w, Only(t));
      InorderPlug(w, Only(t));
    } else {
      MendedGood(w, Only(t));
    }
  }

  /** The tree after the repair that follows the removal of a black node above the subtree `s`. */
  function Mended(x: Ctx<Node>, s: Tree<Node>): Tree<Node> {
    if s.T? then Plug(x, s.(c := Black)) else Plug(DelFix(x), E)
  }

  /** The first place, going up from the hole, that lies in a left subtree. */
  function Turning(x: Ctx<Node>): Ctx<Node> { if x.InRight? then Turning(x.above) else x }

  /** The subtree at the node of that place, with `s` in the hole. */
  function TreeAt(x: Ctx<Node>, s: Tree<Node>): Tree<Node>
    requires Turning(x).InLeft?
  {
    if x.InRight? then TreeAt(x.above, Fill(x, s)) else Fill(x, s)
  }

  /** That node with another entry. */
  function Retag(x: Ctx<Node>, key: int, data: int): Ctx<Node> {
    match x
    case Top => Top
    case InLeft(n, _, _, c, r, a) => InLeft(n, key, data, c, r, a)
    case InRight(l, n, k, d, c, a) => InRight(l, n, k, d, c, Retag(a, key, data))
  }

  lemma AllUp(x: Ctx<Node>, s: Tree<Node>)
    requires !x.Top?
    ensures All(x.above, Fill(x, s)) == All(x, s)
  {
  }

  lemma {:induction false} RetagTree(x: Ctx<Node>, s: Tree<Node>, key: int, data: int)
    requires Turning(x).InLeft?
    ensures var y := Retag(x, key, data);
            && Turning(y).InLeft? && Turning(y).above == Turning(x).above && TreeAt(x, s).T?
            && TreeAt(y, s) == TreeAt(x, s).(key := key, data := data)
  {
    if x.InRight? {
      RetagTree(x.above, Fill(x, s), key, data);
    }
  }

  lemma EmptyLinked(s: Tree<Node>, up: Node?)
    ensures s.E? ==> Linked(s, up)
  {
  }

  lemma TopmostNode(x: Ctx<Node>, a: Node?, b: Node?)
    ensures !x.Top? ==> Topmost(x, a) == Topmost(x, b)
  {
  }

  predicate OneChild(t: Tree<Node>) { t.T? && (t.l.E? || t.r.E?) }

  function Only(t: Tree<Node>): Tree<Node>
    requires OneChild(t)
  {
    if t.l.T? then t.l else t.r
  }

  lemma DetachApart(t: Tree<Node>, s: Tree<Node>)
    requires Distinct(t) && OneChild(t) && s == Only(t)
    ensures Distinct(s) && Refs(t) == Refs(s) + {t.n} && t.n !in Refs(s)
    ensures s.T? ==> s.n in Refs(s) && Outside(s.n, s.l) && Outside(s.n, s.r) && Refs(s.l) <= Refs(s) && Refs(s.r) <= Refs(s)
  {
  }

  lemma NoCtx(h: nat)
    ensures GoodCtx<Node>(Top, h)
  {
  }

  function Depth(x: Ctx<Node>): nat { if x.Top? then 0 else 1 + Depth(x.above) }

  /** A subtree after its near child (left child when `left`) was rotated above its root. */
  function Straight(u: Tree<Node>, left: bool): Tree<Node>
    requires u.T? && Child(u, left).T?
  {
    var v := PaintedChild(u.(c := Red), left, Black);
    if left then TurnRight(v) else TurnLeft(v)
  }

  /** The place of the hole after the sibling was rotated above the parent. */
  function Swung(x: Ctx<Node>): Ctx<Node>
    requires !x.Top? && Sibling(x).T? && Far(x).T?
  {
    var w := Sibling(x);
    if x.InLeft? then InLeft(x.n, x.key, x.data, Black, w.l, InLeft(w.n, w.key, w.data, x.c, w.r.(c := Black), x.above))
    else InRight(w.r, x.n, x.key, x.data, Black, InRight(w.l.(c := Black), w.n, w.key, w.data, x.c, x.above))
  }

  /** Next to a hole that is one black node too low there is a node. */
  lemma TooLow(x: Ctx<Node>, h: nat)
    requires GoodCtx(x, h + 1) && !x.Top?
    ensures Sibling(x).T?
  {
    CtxStep(x, h + 1);
    SiblingNode(x, h);
  }

  lemma LowerStep(x: Ctx<Node>, h: nat)
    requires GoodCtx(x, h + 1) && !x.Top? && IsRed(Sibling(x))
    ensures var y := Lowered(x);
            GoodCtx(y, h + 1) && !y.Top? && Sibling(y).T? && !IsRed(Sibling(y)) && DelFix(y) == DelFix(x)
  {
    LoweredGood(x, h);
    TooLow(Lowered(x), h);
  }

  /** Both nephews black: the sibling turns red, the hole moves to the parent. */
  lemma RecolourStep(x: Ctx<Node>, t: Tree<Node>, h: nat)
    requires GoodCtx(x, h + 1) && !x.Top? && Sibling(x).T? && !IsRed(Sibling(x)) && !RedNephew(x)
    ensures var u := Fill(Recoloured(x, x.c), t);
            && Plug(DelFix(x), t) == Plug(if u.c.Red? then x.above else DelFix(x.above), u.(c := Black))
            && (u.c.Black? ==> GoodCtx(x.above, h + 2))
  {
    AboveGood(x, h + 1);
  }

  /** A red nephew: one or two rotations, and the repair is done. */
  lemma TurnStep(x: Ctx<Node>, t: Tree<Node>, h: nat)
    requires GoodCtx(x, h + 1) && !x.Top? && Sibling(x).T? && !IsRed(Sibling(x)) && RedNephew(x)
    ensures DelFix(x) == Turned(x) && Plug(Turned(x), t).T? && Plug(Turned(x), t).c.Black?
    ensures IsRed(Far(x)) ==> Turned(x) == Swung(x)
    ensures !IsRed(Far(x)) ==>
              var y := Change(x, x.c, Straight(Sibling(x), x.InLeft?)); Far(y).T? && Turned(x) == Swung(y)
  {
    TurnedGood(x, h);
    PlugRoot(Turned(x), t);
  }

  lemma {:induction false} PlugRoot(x: Ctx<Node>, t: Tree<Node>)
    requires !x.Top? && RootBlack(x)
    ensures Plug(x, t).T? && Plug(x, t).c.Black?
  {
    if !x.above.Top? {
      PlugRoot(x.above, Fill(x, t));
    }
  }

  lemma Missing(x: Ctx<Node>, k: int)
    requires Ascending(Inorder(Plug(x, E))) && Between(x, k)
    ensures k !in ToMap(Inorder(Plug(x, E)))
  {
    InorderPlug(x, E);
    assert Before(x) + Inorder<Node>(E) + After(x) == Before(x) + After(x);
    MapInsert(Before(x), (k, 0), After(x));
  }

  /** The repaired tree with a new leaf `t` stands for the map with one more entry. */
  lemma Joined(y: Ctx<Node>, t: Tree<Node>)
    requires t.T? && t.c.Red? && t.l.E? && t.r.E? && !y.Top?
    requires RedBlack(Plug(y, E)) && Ascending(Inorder(Plug(y, E))) && Between(y, t.key)
    ensures var z, m := InsFix(y, t), ToMap(Inorder(Plug(y, E)));
            && RedBlack(z) && Ascending(Inorder(z)) && Size(z) == Size(Plug(y, E)) + 1
            && t.key !in m && ToMap(Inorder(z)) == m[t.key := t.data]
  {
    PlugRedBlack(y, E);
    InsFixGood(y, t);
    InorderPlug(y, E);
    InorderPlug(y, t);
    assert Inorder(t) == [(t.key, t.data)];
    assert Before(y) + Inorder<Node>(E) + After(y) == Before(y) + After(y);
    MapInsert(Before(y), (t.key, t.data), After(y));
    SizeInorder(Plug(y, E));
    SizeInorder(InsFix(y, t));
  }

  lemma InAll(x: Ctx<Node>, t: Tree<Node>)
    ensures CRefs(x) <= All(x, t) && Refs(t) <= All(x, t)
  {
  }

  lemma {:induction false} SizeInorder(t: Tree<Node>)
    ensures |Inorder(t)| == Size(t)
  {
    if t.T? {
      SizeInorder(t.l);
      SizeInorder(t.r);
    }
  }

  /** All entries before the hole have smaller keys than `k`, all entries after it larger ones. */
  ghost predicate Between(x: Ctx<Node>, k: int) { AllLess(Before(x), k) && AllMore(After(x), k) }

  ghost predicate AllLess(s: seq<Entry>, k: int) { forall i | 0 <= i < |s| :: s[i].0 < k }

  ghost predicate AllMore(s: seq<Entry>, k: int) { forall i | 0 <= i < |s| :: k < s[i].0 }

  lemma AroundRoot(b: seq<Entry>, l: seq<Entry>, e: Entry, r: seq<Entry>, a: seq<Entry>)
    requires Ascending(b + (l + [e] + r) + a)
    ensures AllLess(l, e.0) && AllMore(r, e.0)
  {
    var s := b + (l + [e] + r) + a;
    var m := |b| + |l|;
    assert s[m] == e;
    forall i | 0 <= i < |l| ensures l[i].0 < e.0 {
      assert s[|b| + i] == l[i];
    }
    forall i | 0 <= i < |r| ensures e.0 < r[i].0 {
      assert s[m + 1 + i] == r[i];
    }
  }

  lemma BetweenStep(x: Ctx<Node>, t: Tree<Node>, k: int)
    requires Ascending(Before(x) + Inorder(t) + After(x)) && t.T? && Between(x, k) && k != t.key
    ensures Between(Into(x, t, k < t.key), k)
  {
    var b, l, e, r, a := Before(x), Inorder(t.l), (t.key, t.data), Inorder(t.r), After(x);
    AroundRoot(b, l, e, r, a);
    var y := Into(x, t, k < t.key);
    if k < t.key {
      assert After(y) == [e] + r + a && Before(y) == b;
    } else {
      assert Before(y) == b + l + [e] && After(y) == a;
    }
  }

  lemma Present(x: Ctx<Node>, t: Tree<Node>)
    requires Ascending(Before(x) + Inorder(t) + After(x)) && t.T?
    ensures var m := ToMap(Before(x) + Inorder(t) + After(x)); t.key in m && m[t.key] == t.data
  {
    var s := Before(x) + Inorder(t) + After(x);
    ToMapAt(s);
    assert s[|Before(x)| + |Inorder(t.l)|] == (t.key, t.data);
  }

  function Child(t: Tree<Node>, left: bool): Tree<Node>
    requires t.T?
  {
    if left then t.l else t.r
  }

  /** The place of a child of the node that is in the hole of `x`. */
  function Into(x: Ctx<Node>, t: Tree<Node>, left: bool): Ctx<Node>
    requires t.T?
  {
    if left then InLeft(t.n, t.key, t.data, t.c, t.r, x) else InRight(t.l, t.n, t.key, t.data, t.c, x)
  }

  function PaintedChild(t: Tree<Node>, left: bool, c: Color): Tree<Node>
    requires t.T? && Child(t, left).T?
  {
    if left then t.(l := t.l.(c := c)) else t.(r := t.r.(c := c))
  }

  lemma PaintApart(t: Tree<Node>)
    requires Distinct(t) && t.T?
    ensures forall c :: Distinct(t.(c := c)) && Refs(t.(c := c)) == Refs(t)
  {
  }

  lemma RootApart(x: Ctx<Node>, t: Tree<Node>)
    requires Refs(t) !! CRefs(x) && t.T?
    ensures t.n in Refs(t) && t.n !in CRefs(x) && !RootIs(x, t.n)
  {
  }

  /** `node` is the other child of the hole's parent. */
  predicate RootIs(x: Ctx<Node>, node: Node) { !x.Top? && Root(Sibling(x)) == node }

  lemma CtxApart(x: Ctx<Node>, t: Tree<Node>)
    requires CDistinct(x) && Refs(t) !! CRefs(x)
    ensures ParentApart(x, t)
  {
  }

  function TurnLeft(t: Tree<Node>): Tree<Node>
    requires t.T? && t.r.T?
  {
    T(T(t.l, t.n, t.key, t.data, t.c, t.r.l), t.r.n, t.r.key, t.r.data, t.r.c, t.r.r)
  }

  function TurnRight(t: Tree<Node>): Tree<Node>
    requires t.T? && t.l.T?
  {
    T(t.l.l, t.l.n, t.l.key, t.l.data, t.l.c, T(t.l.r, t.n, t.key, t.data, t.c, t.r))
  }

  ghost predicate Outside(n: Node?, t: Tree<Node>) { n == null || n !in Refs(t) }

  /** The nodes above the hole lie apart from the subtrees of `t` and of the hole's parent. */
  ghost predicate ParentApart(x: Ctx<Node>, t: Tree<Node>) {
    !x.Top? ==> x.n in CRefs(x) && Outside(x.n, t) && Outside(x.n, Sibling(x)) && x.n !in CRefs(x.above)
                && Refs(Sibling(x)) <= CRefs(x) && CRefs(x.above) <= CRefs(x)
  }

  lemma TurnLeftApart(t: Tree<Node>)
    requires Distinct(t) && t.T? && t.r.T?
    ensures Distinct(TurnLeft(t)) && Refs(TurnLeft(t)) == Refs(t)
    ensures t.n in Refs(t) && t.r.n in Refs(t) && t.n != t.r.n
    ensures Outside(t.n, t.l) && Outside(t.n, t.r.l) && Outside(t.n, t.r.r)
    ensures Outside(t.r.n, t.l) && Outside(t.r.n, t.r.l) && Outside(t.r.n, t.r.r)
    ensures Refs(t.l) <= Refs(t) && Refs(t.r) <= Refs(t) && Refs(t.r.l) <= Refs(t) && Refs(t.r.r) <= Refs(t)
    ensures var m := t.r.l;
            m.T? ==> && m.n in Refs(t) && m.n != t.n && m.n != t.r.n && Outside(m.n, t.l) && Outside(m.n, t.r.r)
                     && Outside(m.n, m.l) && Outside(m.n, m.r) && Refs(m.l) <= Refs(m) && Refs(m.r) <= Refs(m)
  {
    assert Distinct(t.r) && Distinct(t.r.l);
  }

  lemma TurnRightApart(t: Tree<Node>)
    requires Distinct(t) && t.T? && t.l.T?
    ensures Distinct(TurnRight(t)) && Refs(TurnRight(t)) == Refs(t)
    ensures t.n in Refs(t) && t.l.n in Refs(t) && t.n != t.l.n
    ensures Outside(t.n, t.r) && Outside(t.n, t.l.r) && Outside(t.n, t.l.l)
    ensures Outside(t.l.n, t.r) && Outside(t.l.n, t.l.r) && Outside(t.l.n, t.l.l)
    ensures Refs(t.r) <= Refs(t) && Refs(t.l) <= Refs(t) && Refs(t.l.r) <= Refs(t) && Refs(t.l.l) <= Refs(t)
    ensures var m := t.l.r;
            m.T? ==> && m.n in Refs(t) && m.n != t.n && m.n != t.l.n && Outside(m.n, t.r) && Outside(m.n, t.l.l)
                     && Outside(m.n, m.l) && Outside(m.n, m.r) && Refs(m.l) <= Refs(m) && Refs(m.r) <= Refs(m)
  {
    assert Distinct(t.l) && Distinct(t.l.r);
  }

  lemma TopmostChange(x: Ctx<Node>, a: Node, b: Node)
    ensures !x.Top? ==> Topmost(x, a) == Topmost(x, b) && Topmost(x, a) in CRefs(x)
  {
    if !x.Top? && !x.above.Top? {
      TopmostChange(x.above, x.n, x.n);
    }
  }
}
