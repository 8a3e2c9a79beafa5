/**
 * The persistent singly-linked list of list.go.
 *
 * A `PList` is a header (`node`, `len`, `tail`) over a chain of heap `Node`s.
 * Prepending (`Add`) allocates one node and shares the old chain; every
 * operation that looks like mutation (`Conj`, `Eval`) first deep-copies the
 * chain, so a chain that another list can reach is never written.
 *
 * The ghost spine `nodes` lists the chain front to back; `Contents` is the
 * element sequence; `Repr` is the set of nodes.
 */
module PersistentList {

  import opened Wrappers

  class Node<T> {
    var next: Node?<T>
    var val: T

    constructor (v: T, n: Node?<T>)
      ensures val == v && next == n
    {
      val := v;
      next := n;
    }
  }

  /** The set of nodes on a spine. */
  ghost function NodeSet<T>(ns: seq<Node<T>>): set<Node<T>>
  {
    set x | x in ns
  }

  /** The element-wise rewrite that list.go's Eval performs: every element
      that is not nil is replaced by its evaluation. */
  function Rewritten<T>(s: seq<T>, ev: T -> T, isNil: T -> bool): (r: seq<T>)
    ensures |r| == |s|
    ensures forall i :: 0 <= i < |s| ==> r[i] == Rewrite(s[i], ev, isNil)
  {
    if s == [] then [] else [Rewrite(s[0], ev, isNil)] + Rewritten(s[1..], ev, isNil)
  }

  /** One element of that rewrite. */
  function Rewrite<T>(x: T, ev: T -> T, isNil: T -> bool): T
  {
    if isNil(x) then x else ev(x)
  }

  /** A sequence that agrees with the rewrite at every index is the rewrite. */
  lemma RewrittenUnique<T>(s: seq<T>, t: seq<T>, ev: T -> T, isNil: T -> bool)
    requires |t| == |s|
    requires forall i :: 0 <= i < |s| ==> t[i] == Rewrite(s[i], ev, isNil)
    ensures t == Rewritten(s, ev, isNil)
  {
  }

  class PList<T> {
    var node: Node?<T>
    var len: int
    var tail: Node?<T>

    ghost var nodes: seq<Node<T>>
    ghost var Contents: seq<T>
    ghost var Repr: set<Node<T>>

    /** The chain from `node` is exactly the spine, it ends in null and
        `len` counts it. `tail` is deliberately not constrained: `addFast`
        and `GetTail` leave it stale. Only the `next` fields are read, so
        rewriting values leaves the shape intact. */
    ghost predicate Shape()
      reads this`node, this`len, this`nodes, this`Repr, Repr`next
    {
      && Repr == NodeSet(nodes)
      && |nodes| == len
      && (nodes == [] ==> node == null)
      && (nodes != [] ==> node == nodes[0] && nodes[|nodes| - 1].next == null)
      && (forall i :: 0 <= i < |nodes| - 1 ==> nodes[i].next == nodes[i + 1])
      && (forall i, j :: 0 <= i < j < |nodes| ==> nodes[i] != nodes[j])
    }

    /** A well-formed chain whose values, front to back, are `Contents`. */
    ghost predicate Valid()
      reads this, Repr
    {
      && Shape()
      && |Contents| == |nodes|
      && (forall i :: 0 <= i < |nodes| ==> nodes[i].val == Contents[i])
    }

    /** `tail` points at the last node (what `Conj` relies on). */
    ghost predicate TailExact()
      reads this
    {
      nodes != [] ==> tail == nodes[|nodes| - 1]
    }

    /** NewList (list.go:26-32). */
    constructor ()
      ensures Valid() && Contents == [] && tail == null && fresh(Repr)
    {
      node, len, tail := null, 0, null;
      nodes, Contents, Repr := [], [], {};
    }

    /** A list literal `&List{Node: n, Len: l, Tail: t}` over a given spine. */
    constructor Of(n: Node?<T>, l: int, t: Node?<T>, ghost ns: seq<Node<T>>, ghost cs: seq<T>)
      ensures node == n && len == l && tail == t
      ensures nodes == ns && Contents == cs && Repr == NodeSet(ns)
    {
      node, len, tail := n, l, t;
      nodes, Contents, Repr := ns, cs, NodeSet(ns);
    }

    /** Copy (list.go:34-53): a fresh chain with the same elements, whose
        `tail` is its last node; an empty list is copied field by field. */
    method Copy() returns (r: PList<T>)
      requires Valid()
      ensures fresh(r) && fresh(r.Repr) && r.Valid()
      ensures r.Contents == Contents && r.len == len
      ensures r.TailExact() && (nodes == [] ==> r.tail == tail)
    {
      if node == null {
        r := new PList.Of(null, len, tail, [], []);
        return;
      }
      var n := node;
      var first := new Node(n.val, n.next);
      var v := first;
      ghost var k := 0;
      ghost var cs := [first];
      while n.next != null
        invariant Valid()
        invariant 0 <= k < |nodes| && n == nodes[k]
        invariant |cs| == k + 1 && cs[0] == first && v == cs[k]
        invariant forall j :: 0 <= j <= k ==> fresh(cs[j]) && cs[j].val == Contents[j]
        invariant forall j :: 0 <= j < k ==> cs[j].next == cs[j + 1]
        invariant v.next == n.next
        invariant k < |nodes| - 1 ==> n.next == nodes[k + 1]
        invariant forall i, j :: 0 <= i < j <= k ==> cs[i] != cs[j]
        decreases |nodes| - k
      {
        n := n.next;
        k := k + 1;
        var c := new Node(n.val, n.next);
        v.next := c;
        v := c;
        cs := cs + [c];
      }
      r := new PList.Of(first, len, v, cs, Contents);
    }

    /** Conj (list.go:55-68): copies both lists, then splices the copy of
        `a` after the copy of this list. */
    method Conj(a: PList<T>) returns (r: PList<T>)
      requires Valid() && a.Valid()
      ensures fresh(r) && fresh(r.Repr) && r.Valid()
      ensures r.Contents == Contents + a.Contents && r.len == len + a.len
    {
      var lc := Copy();
      var ac := a.Copy();
      if lc.node == null {
        return ac;
      } else if ac.node == null {
        return lc;
      }
      assert lc.tail in lc.Repr;
      lc.Splice(ac);
      r := lc;
    }

    /** The splice of list.go:64-66: links `b`'s chain after this list's
        last node, which `tail` must point at. */
    method Splice(b: PList<T>)
      requires Valid() && b.Valid() && TailExact() && nodes != [] && Repr !! b.Repr
      modifies this, tail`next
      ensures Valid() && Repr == old(Repr) + b.Repr
      ensures Contents == old(Contents) + b.Contents && len == old(len) + b.len
    {
      ghost var A, B := nodes, b.nodes;
      assert tail in Repr;
      tail.next := b.node;
      len := len + b.len;
      tail := b.tail;
      nodes, Contents, Repr := A + B, Contents + b.Contents, Repr + b.Repr;
      forall i, j | 0 <= i < j < |nodes| ensures nodes[i] != nodes[j] {
        if j >= |A| && i < |A| {
          assert nodes[i] in old(Repr) && nodes[j] in b.Repr;
        }
      }
      forall i | 0 <= i < |nodes| - 1 ensures nodes[i].next == nodes[i + 1] {
        if i < |A| - 1 {
          assert A[i] != A[|A| - 1];
        }
      }
    }

    /** addFast (list.go:70-77): prepends in place; `tail` is left alone. */
    method AddFast(s: T)
      requires Valid()
      modifies this
      ensures Valid() && fresh(node)
      ensures Contents == [s] + old(Contents) && len == old(len) + 1
      ensures nodes[1..] == old(nodes) && Repr == old(Repr) + {node}
      ensures tail == old(tail)
    {
      var n := new Node(s, node);
      node := n;
      len := len + 1;
      nodes, Contents, Repr := [n] + nodes, [s] + Contents, Repr + {n};
    }

    /** Add (list.go:79-93): a new list with `s` in front, sharing this
        list's chain; this list is not touched. */
    method Add(s: T) returns (r: PList<T>)
      requires Valid()
      ensures fresh(r) && fresh(r.node) && r.Valid()
      ensures r.Contents == [s] + Contents && r.len == len + 1
      ensures r.nodes[1..] == nodes && r.Repr == Repr + {r.node}
      ensures r.tail == if len == 0 then r.node else tail
      ensures TailExact() ==> r.TailExact()
    {
      var n := new Node(s, node);
      var t := tail;
      if len == 0 {
        t := n;
      }
      r := new PList.Of(n, len + 1, t, [n] + nodes, [s] + Contents);
    }

    /** Head (list.go:95-100): the first element, nil for the empty list. */
    function Head(): (h: Option<T>)
      requires Valid()
      reads this, Repr
      ensures h == if Contents == [] then None else Some(Contents[0])
    {
      if node != null then Some(node.val) else None
    }

    /** GetTail (list.go:101-115): a new header over the rest of the chain
        (shared, not copied), keeping the old `tail`; empty stays empty. */
    method GetTail() returns (r: PList<T>)
      requires Valid()
      ensures fresh(r) && r.Valid() && r.Repr <= Repr
      ensures Contents == [] ==> r.Contents == [] && r.tail == null
      ensures Contents != [] ==> r.Contents == Contents[1..] && r.nodes == nodes[1..] && r.tail == tail
      ensures r.len == if Contents == [] then 0 else len - 1
    {
      if node != null {
        r := new PList.Of(node.next, len - 1, tail, nodes[1..], Contents[1..]);
        assert forall i :: 0 <= i < |nodes| - 1 ==> nodes[i + 1] == r.nodes[i];
        return;
      }
      r := new PList.Of(null, 0, null, [], []);
    }

    /** Length (list.go:116-118). */
    function Length(): (n: int)
      requires Valid()
      reads this, Repr
      ensures n == |Contents|
    {
      len
    }

    /** Append (list.go:123-128): replaces this header by that of `Add(s)`,
        so elements appended one by one end up in reverse order. */
    method Append(s: T)
      requires Valid()
      modifies this
      ensures Valid() && fresh(node)
      ensures Contents == [s] + old(Contents) && len == old(len) + 1
      ensures nodes[1..] == old(nodes) && Repr == old(Repr) + {node}
      ensures tail == if old(len) == 0 then node else old(tail)
    {
      var n := Add(s);
      node, len, tail := n.node, n.len, n.tail;
      nodes, Contents, Repr := n.nodes, n.Contents, n.Repr;
    }

    /** Eval (list.go:144-160): copies the list, then rewrites the copy's
        non-nil elements front to back with the element evaluator `ev`. */
    method Eval(ev: T -> T, isNil: T -> bool) returns (r: PList<T>)
      requires Valid()
      ensures fresh(r) && fresh(r.Repr) && r.Valid() && r.len == len
      ensures r.Contents == Rewritten(Contents, ev, isNil)
    {
      r := Copy();
      r.RewriteValues(ev, isNil);
    }

    /** The loop of list.go:146-158: rewrites every non-nil value in place,
        front to back. Eval runs it on a fresh copy only. */
    method RewriteValues(ev: T -> T, isNil: T -> bool)
      requires Valid()
      modifies this`Contents, Repr`val
      ensures Valid() && Contents == Rewritten(old(Contents), ev, isNil)
    {
      var n := node;
      if n != null {
        RewriteNode(n, 0, ev, isNil);
        ghost var k := 0;
        while n.next != null
          invariant Valid()
          invariant 0 <= k < |nodes| && n == nodes[k]
          invariant k < |nodes| - 1 ==> n.next == nodes[k + 1]
          invariant |Contents| == |old(Contents)|
          invariant forall i :: 0 <= i <= k ==> Contents[i] == Rewrite(old(Contents)[i], ev, isNil)
          invariant forall i :: k < i < |Contents| ==> Contents[i] == old(Contents)[i]
          decreases |nodes| - k
        {
          n := n.next;
          k := k + 1;
          RewriteNode(n, k, ev, isNil);
        }
      }
      RewrittenUnique(old(Contents), Contents, ev, isNil);
    }

    /** One step of that loop: `if n.Val != nil { n.Val = n.Val.Eval(c) }`
        on the k-th node. */
    method RewriteNode(n: Node<T>, ghost k: nat, ev: T -> T, isNil: T -> bool)
      requires Valid() && k < |nodes| && n == nodes[k]
      modifies this`Contents, n`val
      ensures Valid() && Contents == old(Contents)[k := Rewrite(old(Contents)[k], ev, isNil)]
    {
      assert forall i :: 0 <= i < |nodes| && i != k ==> nodes[i] != n;
      if !isNil(n.val) {
        n.val := ev(n.val);
        Contents := Contents[k := n.val];
      }
    }

    /** Bool (list.go:161-166): a list is true iff it is non-empty. */
    function Bool(): (b: bool)
      requires Valid()
      reads this, Repr
      ensures b <==> Contents != []
    {
      Length() > 0
    }
  }
}
