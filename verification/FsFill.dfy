// Which places bmap() fills, and with which blocks: the missing ones on its way, with the lowest free
// blocks. So what a write allocates is known before it runs.

module FsFill {
  import opened Common
  import opened FsBlock
  import opened FsOwner
  import opened FsUpdate
  import opened FsFile

  /** A place and the places that lead to it. */
  function Path(p: Place): set<Place> { if p.Slot? then {p} else Path(p.up) + {p} }

  function MissingOn(s: FS, p: Place): set<Place> { set v | v in Path(p) && Ref(s, v) == 0 }

  /** The blocks that the places of `d` name. */
  function Blocks(s: FS, d: set<Place>): set<nat> { set v | v in d :: Ref(s, v) }

  ghost function FreeBlocks(s: FS): set<nat>
    requires WF(s)
  {
    set x: nat | x < s.g.size && !Used(s, x)
  }

  // ---- the lowest numbers of a set -------------------------------------------------------------------------

  ghost predicate IsFirst(low: set<nat>, all: set<nat>) {
    low <= all && forall x, y | x in low && y in all && y < x :: y in low
  }

  ghost function Below(all: set<nat>, x: nat): set<nat> { set y | y in all && y < x }

  /** The `n` lowest numbers. */
  ghost function FirstOf(all: set<nat>, n: nat): set<nat> { set x | x in all && |Below(all, x)| < n }

  lemma FirstIs(low: set<nat>, all: set<nat>)
    requires IsFirst(low, all)
    ensures low == FirstOf(all, |low|)
  {
    forall x | x in all ensures x in low <==> |Below(all, x)| < |low| {
      if x in low {
        SubsetSize(Below(all, x), low - {x});
      } else {
        SubsetSize(low, Below(all, x));
      }
    }
  }

  lemma {:induction false} FirstSize(all: set<nat>, n: nat)
    ensures |FirstOf(all, n)| <= n
    decreases |all|
  {
    if all != {} {
      var m := Greatest(all);
      var rest := all - {m};
      FirstSize(rest, n);
      forall x | x in rest ensures Below(all, x) == Below(rest, x) {}
      assert Below(all, m) == rest;
      assert FirstOf(all, n) == FirstOf(rest, n) + if |rest| < n then {m} else {};
      SubsetSize(FirstOf(rest, n), rest);
    }
  }

  lemma {:induction false} Greatest(all: set<nat>) returns (m: nat)
    requires all != {}
    ensures m in all && forall x | x in all :: x <= m
    decreases |all|
  {
    m :| m in all;
    var rest := all - {m};
    assert all == rest + {m};
    if rest != {} {
      var n := Greatest(rest);
      if n > m { m := n; }
    }
  }

  lemma FirstTrans(a: set<nat>, b: set<nat>, all: set<nat>)
    requires IsFirst(a, all) && IsFirst(b, all - a)
    ensures IsFirst(a + b, all)
  {
  }

  // ---- filling ---------------------------------------------------------------------------------------------

  ghost predicate FillAt(s: FS, s': FS, d: set<Place>, q: Place) {
    Legal(s, q) ==> if q in d then Ref(s, q) == 0 && Ref(s', q) != 0 else Ref(s', q) == Ref(s, q)
  }

  /** From `s` to `s'` the empty places of `d` got the lowest free blocks, one each; no other block
      number and no other bit changed. */
  ghost predicate Filling(s: FS, s': FS, d: set<Place>) {
    && WF(s) && WF(s') && s'.g == s.g && |s'.files| == |s.files|
    && (forall q | q in d :: Legal(s, q))
    && (forall q {:trigger FillAt(s, s', d, q)} :: FillAt(s, s', d, q))
    && FreeBlocks(s') == FreeBlocks(s) - Blocks(s', d)
    && IsFirst(Blocks(s', d), FreeBlocks(s)) && |Blocks(s', d)| == |d|
  }

  /** A proper part of the missing places `m` got blocks before there were no more. */
  ghost predicate Partly(s: FS, s': FS, m: set<Place>) { exists d :: d < m && Filling(s, s', d) }

  lemma FillingSame(s: FS, s': FS)
    requires WF(s) && WF(s') && s'.g == s.g && |s'.files| == |s.files|
    requires forall q | Legal(s, q) :: Ref(s', q) == Ref(s, q)
    requires forall x: nat | x < s.g.size :: Used(s', x) == Used(s, x)
    ensures Filling(s, s', {})
  {
    hide Ref, Legal, Used, WF;
    assert Blocks(s', {}) == {};
    SameFree(s, s');
    forall q ensures FillAt(s, s', {}, q) {}
  }

  lemma SameFree(s: FS, s': FS)
    requires WF(s) && WF(s') && s'.g == s.g && forall x: nat | x < s.g.size :: Used(s', x) == Used(s, x)
    ensures FreeBlocks(s') == FreeBlocks(s)
  {
    hide Used, WF;
  }

  lemma FillingAttached(s: FS, o: Owners, p: Place, b: nat)
    requires Owned(s, o, {}) && b < s.g.size && !Used(s, b) && Vacant(s, p)
    requires p.Sub? ==> Ref(Alloc(s, b), p.up) == Ref(s, p.up) < s.g.size
    requires forall x | 0 <= x < b :: Used(s, x)
    ensures Filling(s, Attached(s, p, b), {p})
  {
    hide Referred, Owning, BitmapRight, Used, Ref, Attached, Alloc, Legal, BBlock;
    FreeIsUnowned(s, o, b);
    OwnedAttached(s, o, p, b);
    AttachedSize(s, p, b);
    RefAttached(s, o, p, b, p);
    var s' := Attached(s, p, b);
    assert Blocks(s', {p}) == {b};
    forall q ensures FillAt(s, s', {p}, q) {
      if Legal(s, q) {
        RefAttached(s, o, p, b, q);
        BelowEmpty(s, p, q);
      }
    }
    forall x: nat | x < s.g.size ensures Used(s', x) <==> Used(s, x) || x == b {
      UsedAttached(s, o, p, b, x);
    }
    LessFree(s, s', b);
  }

  lemma LessFree(s: FS, s': FS, b: nat)
    requires WF(s) && WF(s') && s'.g == s.g && b < s.g.size && !Used(s, b)
    requires forall x: nat | x < s.g.size :: Used(s', x) <==> Used(s, x) || x == b
    requires forall x | 0 <= x < b :: Used(s, x)
    ensures FreeBlocks(s') == FreeBlocks(s) - {b} && IsFirst({b}, FreeBlocks(s))
  {
    hide Used, WF;
  }

  lemma BelowEmpty(s: FS, p: Place, q: Place)
    requires Ref(s, p) == 0
    ensures q.Sub? && q.up == p ==> Ref(s, q) == 0
  {
  }

  lemma FillingTrans(a: FS, b: FS, c: FS, d: set<Place>, e: set<Place>)
    requires Filling(a, b, d) && Filling(b, c, e)
    ensures Filling(a, c, d + e) && d !! e
  {
    hide Ref, Legal, Used, WF, FreeBlocks, IsFirst;
    forall q ensures FillAt(a, c, d + e, q) && (q in d ==> q !in e && Ref(c, q) == Ref(b, q)) && (q in e ==> Legal(a, q)) {
      assert FillAt(a, b, d, q) && FillAt(b, c, e, q);
      SameLegal(a, b, q);
    }
    var x, y := Blocks(b, d), Blocks(c, e);
    assert Blocks(c, d + e) == x + y;
    FirstTrans(x, y, FreeBlocks(a));
    FirstParts(x, FreeBlocks(a));
    FirstParts(y, FreeBlocks(b));
    assert x !! y;
    assert |x + y| == |x| + |y| && |d + e| == |d| + |e|;
  }

  lemma FirstParts(low: set<nat>, all: set<nat>)
    requires IsFirst(low, all)
    ensures low <= all
  {
  }

  /** A filled place stays filled, with its block. */
  lemma FilledStays(s: FS, s': FS, d: set<Place>, q: Place)
    requires Filling(s, s', d) && Legal(s, q)
    ensures Ref(s, q) != 0 ==> q !in d && Ref(s', q) == Ref(s, q)
    ensures Ref(s', q) == 0 <==> Ref(s, q) == 0 && q !in d
  {
    hide Ref, Legal, Used, WF;
    assert FillAt(s, s', d, q);
  }

  lemma PartlyTrans(a: FS, b: FS, c: FS, d: set<Place>, m: set<Place>)
    requires Filling(a, b, d) && Partly(b, c, m) && d !! m
    ensures Partly(a, c, d + m)
  {
    hide Filling;
    var e :| e < m && Filling(b, c, e);
    FillingTrans(a, b, c, d, e);
    assert d + e < d + m;
  }

  lemma PartlyMore(s: FS, s': FS, m: set<Place>, n: set<Place>)
    requires Partly(s, s', m) && m <= n
    ensures Partly(s, s', n)
  {
    hide Filling;
    var d :| d < m && Filling(s, s', d);
    assert d < n;
  }

  /** There were enough free blocks. */
  lemma FillingCount(s: FS, s': FS, d: set<Place>)
    requires Filling(s, s', d)
    ensures |d| <= |FreeBlocks(s)| && Blocks(s', d) == FirstOf(FreeBlocks(s), |d|)
  {
    hide Ref, Legal, Used, WF, FreeBlocks;
    FirstIs(Blocks(s', d), FreeBlocks(s));
    SubsetSize(Blocks(s', d), FreeBlocks(s));
  }

  lemma FillingParts(s: FS, s': FS, d: set<Place>)
    requires Filling(s, s', d)
    ensures WF(s) && WF(s') && s'.g == s.g && |s'.files| == |s.files| && |Blocks(s', d)| == |d|
    ensures Blocks(s', d) <= FreeBlocks(s) && FreeBlocks(s') == FreeBlocks(s) - Blocks(s', d)
  {
    hide Ref, Legal, Used, WF, FreeBlocks;
  }

  lemma NothingLeft(a: set<nat>, b: set<nat>)
    requires b <= a && a - b == {}
    ensures a == b
  {
    forall x | x in a ensures x in b { assert x !in a - b; }
  }

  lemma ProperSmaller<T>(a: set<T>, b: set<T>)
    requires a < b
    ensures |a| < |b|
  {
    assert b == a + (b - a) && b - a != {};
  }

  /** There were not. */
  lemma PartlyCount(s: FS, s': FS, m: set<Place>)
    requires WF(s) && WF(s') && Partly(s, s', m) && FreeBlocks(s') == {}
    ensures |FreeBlocks(s)| < |m|
  {
    hide Filling, FreeBlocks, Blocks, WF;
    var d :| d < m && Filling(s, s', d);
    FillingParts(s, s', d);
    NothingLeft(FreeBlocks(s), Blocks(s', d));
    ProperSmaller(d, m);
  }

  // ---- paths -----------------------------------------------------------------------------------------------

  lemma {:induction false} PathLegal(s: FS, p: Place)
    requires Legal(s, p)
    ensures forall v | v in Path(p) :: Legal(s, v) && FileOf(v) == FileOf(p) && (v != p ==> IsIndex(s.g, v))
  {
    if p.Sub? { PathLegal(s, p.up); }
  }

  lemma {:induction false} PathDepth(p: Place, v: Place)
    requires v in Path(p)
    ensures Depth(v) <= Depth(p) && (v != p ==> Depth(v) < Depth(p))
  {
    if p.Sub? && v != p { PathDepth(p.up, v); }
  }

  function Depth(p: Place): nat { if p.Slot? then 0 else 1 + Depth(p.up) }

  lemma MissingStep(s: FS, p: Place)
    requires p.Sub?
    ensures MissingOn(s, p) == MissingOn(s, p.up) + Need(s, p)
    ensures p !in MissingOn(s, p.up)
  {
    hide Ref;
    if p in Path(p.up) { PathDepth(p.up, p); }
  }

  /** What is missing after some places were filled. */
  lemma MissingAfter(s: FS, s': FS, d: set<Place>, p: Place)
    requires Filling(s, s', d) && Legal(s, p)
    ensures MissingOn(s', p) == MissingOn(s, p) - d
  {
    hide Ref, Legal, Filling;
    PathLegal(s, p);
    forall v | v in Path(p) ensures v in MissingOn(s', p) <==> v in MissingOn(s, p) && v !in d {
      FilledStays(s, s', d, v);
    }
  }

  lemma {:induction false} NothingMissing(s: FS, p: Place)
    requires Ref(s, p) != 0
    ensures MissingOn(s, p) == {}
  {
    if p.Sub? {
      NothingMissing(s, p.up);
      MissingStep(s, p);
    }
  }

  // ---- filling along a path ----------------------------------------------------------------------------------

  /** What the step to one place fills, once the way to it is there. */
  function Need(s: FS, p: Place): set<Place> { if Ref(s, p) == 0 then {p} else {} }

  lemma NeedSlot(s: FS, p: Place)
    requires p.Slot?
    ensures MissingOn(s, p) == Need(s, p)
  {
  }

  /** The way to `p` was filled, and then `p` itself. */
  lemma FillingThen(s: FS, s1: FS, s2: FS, p: Place)
    requires p.Sub? && Legal(s, p) && Filling(s, s1, MissingOn(s, p.up)) && Filling(s1, s2, Need(s1, p))
    ensures Filling(s, s2, MissingOn(s, p))
  {
    hide Ref, Legal, Filling, MissingOn;
    MissingStep(s, p);
    FilledStays(s, s1, MissingOn(s, p.up), p);
    FillingTrans(s, s1, s2, MissingOn(s, p.up), Need(s1, p));
  }

  /** There was no block for `p` itself. */
  lemma PartlyThen(s: FS, s1: FS, p: Place)
    requires p.Sub? && Legal(s, p) && Filling(s, s1, MissingOn(s, p.up)) && Ref(s1, p) == 0
    ensures Partly(s, s1, MissingOn(s, p))
  {
    hide Ref, Legal, Filling, MissingOn;
    MissingStep(s, p);
    FilledStays(s, s1, MissingOn(s, p.up), p);
    assert MissingOn(s, p.up) < MissingOn(s, p);
  }

  /** There was no block at all. */
  lemma PartlyNone(s: FS, p: Place)
    requires WF(s) && Ref(s, p) == 0
    ensures Partly(s, s, MissingOn(s, p))
  {
    hide Ref, Legal, Filling, WF, Used;
    FillingSame(s, s);
    OnPath(p);
    assert {} < MissingOn(s, p) by { assert p in MissingOn(s, p); }
  }

  lemma OnPath(p: Place)
    ensures p in Path(p)
  {
  }
}
