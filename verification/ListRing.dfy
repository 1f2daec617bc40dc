// xv7/kernel/list.c: circular doubly linked lists threaded through the elements. An element is
// named by an integer address; a list is named by the address of its head.

module ListRing {
  import opened Common

  type Links = map<int, int>

  /** Position `i` on the ring: the head, then the elements, then the head again. */
  function At(head: int, s: seq<int>, i: int): int
    requires 0 <= i <= |s| + 1
  {
    if 0 < i <= |s| then s[i - 1] else head
  }

  /** The list at `head` holds exactly the elements `s`, in this order both ways round. */
  ghost predicate IsRing(next: Links, prev: Links, head: int, s: seq<int>) {
    && NoDup(s) && head !in s
    && head in next && head in prev && (forall x :: x in s ==> x in next && x in prev)
    && (forall i :: 0 <= i <= |s| ==> next[At(head, s, i)] == At(head, s, i + 1))
    && (forall i :: 0 <= i <= |s| ==> prev[At(head, s, i + 1)] == At(head, s, i))
  }

  ghost function Nodes(head: int, s: seq<int>): set<int> { {head} + set x | x in s }

  /** A list does not notice changes to the links of other elements. */
  lemma RingFrame(next: Links, prev: Links, next': Links, prev': Links, head: int, s: seq<int>)
    requires IsRing(next, prev, head, s)
    requires forall x :: x in Nodes(head, s) ==> x in next' && x in prev' && next'[x] == next[x] && prev'[x] == prev[x]
    ensures IsRing(next', prev', head, s)
  {
    forall x | x in s ensures x in Nodes(head, s) {}
    forall i | 0 <= i <= |s| + 1 ensures At(head, s, i) in Nodes(head, s) {
      if 0 < i <= |s| { assert s[i - 1] in s; }
    }
  }

  /** Only the links of the given elements may differ. */
  ghost predicate OnlyChanged(l: Links, l': Links, nodes: set<int>) {
    forall x :: x in l && x !in nodes ==> x in l' && l'[x] == l[x]
  }

  lemma First(next: Links, prev: Links, head: int, s: seq<int>)
    requires IsRing(next, prev, head, s) && s != []
    ensures head in next && next[head] == s[0]
  {
    assert next[At(head, s, 0)] == At(head, s, 1);
  }

  class ListMem {
    var next: Links
    var prev: Links

    constructor ()
      ensures next == map[] && prev == map[]
    {
      next, prev := map[], map[];
    }

    /** lst_init */
    method Init(lst: int)
      modifies this
      ensures IsRing(next, prev, lst, [])
      ensures OnlyChanged(old(next), next, {lst}) && OnlyChanged(old(prev), prev, {lst})
    {
      next := next[lst := lst];
      prev := prev[lst := lst];
    }

    /** lst_empty */
    method Empty(lst: int, ghost s: seq<int>) returns (r: bool)
      requires IsRing(next, prev, lst, s)
      ensures r <==> s == []
    {
      assert next[At(lst, s, 0)] == At(lst, s, 1);
      r := next[lst] == lst;
    }

    /** lst_remove: needs only the element, not the list it is on. */
    method Remove(e: int, ghost head: int, ghost s: seq<int>, ghost k: nat)
      requires IsRing(next, prev, head, s) && k < |s| && s[k] == e
      modifies this
      ensures IsRing(next, prev, head, s[..k] + s[k + 1..])
      ensures OnlyChanged(old(next), next, Nodes(head, s)) && OnlyChanged(old(prev), prev, Nodes(head, s))
    {
      assert At(head, s, k + 1) == e;
      assert next[e] == At(head, s, k + 2) && prev[e] == At(head, s, k);
      ghost var t := s[..k] + s[k + 1..];
      next := next[prev[e] := next[e]];
      prev := prev[next[e] := prev[e]];
      RemoveRing(old(next), old(prev), next, prev, head, s, k);
    }

    /** lst_pop; the panic on an empty list is a precondition. */
    method Pop(lst: int, ghost s: seq<int>) returns (p: int)
      requires IsRing(next, prev, lst, s) && s != []
      modifies this
      ensures p == s[0] && IsRing(next, prev, lst, s[1..])
      ensures OnlyChanged(old(next), next, Nodes(lst, s)) && OnlyChanged(old(prev), prev, Nodes(lst, s))
    {
      hide IsRing, OnlyChanged, Nodes;
      First(next, prev, lst, s);
      p := next[lst];
      Remove(p, lst, s, 0);
      assert s[..0] + s[1..] == s[1..];
    }

    /** lst_push */
    method Push(lst: int, p: int, ghost s: seq<int>)
      requires IsRing(next, prev, lst, s) && p !in s && p != lst
      modifies this
      ensures IsRing(next, prev, lst, [p] + s)
      ensures OnlyChanged(old(next), next, Nodes(lst, s) + {p}) && OnlyChanged(old(prev), prev, Nodes(lst, s) + {p})
    {
      assert next[At(lst, s, 0)] == At(lst, s, 1);
      next := next[p := next[lst]];
      prev := prev[p := lst];
      prev := prev[next[lst] := p];
      next := next[lst := p];
      PushRing(old(next), old(prev), next, prev, lst, s, p);
    }
  }

  lemma RemoveRing(next: Links, prev: Links, next': Links, prev': Links, head: int, s: seq<int>, k: nat)
    requires IsRing(next, prev, head, s) && k < |s|
    requires At(head, s, k) in next && At(head, s, k + 2) in prev
    requires next' == next[At(head, s, k) := At(head, s, k + 2)]
    requires prev' == prev[At(head, s, k + 2) := At(head, s, k)]
    ensures IsRing(next', prev', head, s[..k] + s[k + 1..])
    ensures At(head, s, k) in Nodes(head, s) && At(head, s, k + 2) in Nodes(head, s)
  {
    var t := s[..k] + s[k + 1..];
    forall i | 0 <= i <= |t| ensures At(head, t, i) == At(head, s, if i <= k then i else i + 1) {}
    forall i, j | 0 <= i < j <= |s| ensures At(head, s, i) != At(head, s, j) { Apart(next, prev, head, s, i, j); }
    forall i | 0 <= i <= |t| ensures next'[At(head, t, i)] == At(head, t, i + 1) {
      if i > k { assert next[At(head, s, i + 1)] == At(head, s, i + 2); } else { assert next[At(head, s, i)] == At(head, s, i + 1); }
    }
    forall i | 0 <= i <= |t| ensures prev'[At(head, t, i + 1)] == At(head, t, i) {
      if i >= k { assert prev[At(head, s, i + 2)] == At(head, s, i + 1); } else { assert prev[At(head, s, i + 1)] == At(head, s, i); }
    }
  }

  /** Positions 0 to |s| of a ring are distinct. */
  lemma Apart(next: Links, prev: Links, head: int, s: seq<int>, i: nat, j: nat)
    requires IsRing(next, prev, head, s) && i < j <= |s|
    ensures At(head, s, i) != At(head, s, j)
  {
    assert s[j - 1] in s;
  }

  lemma PushRing(next: Links, prev: Links, next': Links, prev': Links, head: int, s: seq<int>, p: int)
    requires IsRing(next, prev, head, s) && p !in s && p != head
    requires next' == next[p := At(head, s, 1)][head := p]
    requires prev' == prev[p := head][At(head, s, 1) := p]
    ensures IsRing(next', prev', head, [p] + s)
    ensures At(head, s, 1) in Nodes(head, s)
  {
    var t := [p] + s;
    forall i | 1 < i <= |t| + 1 ensures At(head, t, i) == At(head, s, i - 1) {}
    forall i, j | 0 <= i < j <= |s| ensures At(head, s, i) != At(head, s, j) { Apart(next, prev, head, s, i, j); }
    forall i | 0 <= i <= |t| ensures next'[At(head, t, i)] == At(head, t, i + 1) {
      if i > 1 { assert next[At(head, s, i - 1)] == At(head, s, i); }
    }
    forall i | 0 <= i <= |t| ensures prev'[At(head, t, i + 1)] == At(head, t, i) {
      if i > 1 { assert prev[At(head, s, i)] == At(head, s, i - 1); }
    }
  }
}
