/**
 * Context (core.go:14-47): chained scopes. A Context is a map from names
 * to values plus a pointer to its parent. Contexts are shared (closures
 * capture them, calls create children of them) and updated in place, so
 * they live in a store and a Context is its index there.
 */
module Env {
  import opened Wrappers
  import opened Values

  datatype Frame = Frame(vars: map<string, Value>, parent: Option<nat>)

  /** All Contexts created so far, and how many closures have been
      created (the next closure's identity). */
  datatype Store = Store(frames: seq<Frame>, fnCount: nat)

  /** Parents are created before their children, so a parent has a smaller
      index. Every operation keeps this; it makes the parent chain finite. */
  predicate Ordered(st: Store) {
    forall i :: 0 <= i < |st.frames| ==>
      st.frames[i].parent.Some? ==> st.frames[i].parent.value < i
  }

  /** Context.Get (core.go:37-43): the binding in `c`, or else in its
      parent chain. A parent link that does not point to an earlier
      Context ends the search; Ordered rules that out. */
  function Lookup(st: Store, c: nat, key: string): Option<Value>
    decreases c
  {
    if c >= |st.frames| then None
    else
      var f := st.frames[c];
      if key in f.vars then Some(f.vars[key])
      else match f.parent
        case None => None
        case Some(p) => if p < c then Lookup(st, p, key) else None
  }

  /** NewContext (core.go:19-24): an empty Context whose parent is `parent`,
      and its index. */
  function NewFrame(st: Store, parent: nat): (r: (Store, nat))
    ensures r.1 == |st.frames| && r.0.frames == st.frames + [Frame(map[], Some(parent))]
    ensures r.0.fnCount == st.fnCount
  {
    (Store(st.frames + [Frame(map[], Some(parent))], st.fnCount), |st.frames|)
  }

  /** Context.Set (core.go:45-47): writes `key` in `c` only. */
  function SetVar(st: Store, c: nat, key: string, v: Value): (r: Store)
    ensures |r.frames| == |st.frames| && r.fnCount == st.fnCount
    ensures forall i :: 0 <= i < |st.frames| && i != c ==> r.frames[i] == st.frames[i]
    ensures c < |st.frames| ==>
      r.frames[c] == st.frames[c].(vars := st.frames[c].vars[key := v])
  {
    if c < |st.frames| then
      st.(frames := st.frames[c := st.frames[c].(vars := st.frames[c].vars[key := v])])
    else st
  }

  // ---------------------------------------------------------------------
  // Properties of Get and Set

  /** A key bound in the Context itself shadows its ancestors; a key
      missing there is looked up in the parent; a key missing at the root
      is not found. */
  lemma LookupChain(st: Store, c: nat, key: string)
    requires Ordered(st) && c < |st.frames|
    ensures key in st.frames[c].vars ==> Lookup(st, c, key) == Some(st.frames[c].vars[key])
    ensures key !in st.frames[c].vars && st.frames[c].parent.Some? ==>
      Lookup(st, c, key) == Lookup(st, st.frames[c].parent.value, key)
    ensures key !in st.frames[c].vars && st.frames[c].parent.None? ==>
      Lookup(st, c, key) == None
  {
  }

  /** Set then Get in the same Context finds the new value. */
  lemma GetAfterSet(st: Store, c: nat, key: string, v: Value)
    requires c < |st.frames|
    ensures Lookup(SetVar(st, c, key, v), c, key) == Some(v)
  {
  }

  /** Set leaves every other key, seen from the same Context, unchanged. */
  lemma GetOtherAfterSet(st: Store, c: nat, key: string, other: string, v: Value)
    requires key != other
    ensures Lookup(SetVar(st, c, key, v), c, other) == Lookup(st, c, other)
  {
    SetOtherKey(st, c, c, key, other, v);
  }

  /** Set in one Context changes no lookup of another key anywhere. */
  lemma {:induction false} SetOtherKey(st: Store, d: nat, c: nat, key: string, other: string, v: Value)
    requires key != other
    ensures Lookup(SetVar(st, c, key, v), d, other) == Lookup(st, d, other)
    decreases d
  {
    var st' := SetVar(st, c, key, v);
    if d < |st.frames| {
      assert other in st'.frames[d].vars <==> other in st.frames[d].vars;
      if other in st.frames[d].vars {
        assert st'.frames[d].vars[other] == st.frames[d].vars[other];
      } else if st.frames[d].parent.Some? && st.frames[d].parent.value < d {
        SetOtherKey(st, st.frames[d].parent.value, c, key, other, v);
      }
    }
  }

  /** Set in a Context that is not on `d`'s chain is invisible from `d`:
      Set is local to its Context. */
  lemma {:induction false} SetInvisible(st: Store, d: nat, c: nat, key: string, v: Value)
    requires !OnChain(st, d, c)
    ensures Lookup(SetVar(st, c, key, v), d, key) == Lookup(st, d, key)
    decreases d
  {
    var st' := SetVar(st, c, key, v);
    if d < |st.frames| {
      assert st'.frames[d] == st.frames[d];
      var f := st.frames[d];
      if key !in f.vars && f.parent.Some? && f.parent.value < d {
        SetInvisible(st, f.parent.value, c, key, v);
      }
    }
  }

  /** Whether `c` is `d` or one of its ancestors. */
  predicate OnChain(st: Store, d: nat, c: nat)
    decreases d
  {
    d < |st.frames| &&
    (d == c ||
     (st.frames[d].parent.Some? && st.frames[d].parent.value < d &&
      OnChain(st, st.frames[d].parent.value, c)))
  }

  /** A new Context starts empty, so it sees exactly what its parent sees,
      and creating it changes no existing lookup. */
  lemma {:induction false} NewFrameLookup(st: Store, parent: nat, d: nat, key: string)
    requires parent < |st.frames|
    ensures Lookup(NewFrame(st, parent).0, NewFrame(st, parent).1, key) == Lookup(st, parent, key)
    ensures d < |st.frames| ==> Lookup(NewFrame(st, parent).0, d, key) == Lookup(st, d, key)
    decreases d
  {
    var st' := NewFrame(st, parent).0;
    NewFrameKeeps(st, parent, parent, key);
    NewFrameKeeps(st, parent, d, key);
  }

  lemma {:induction false} NewFrameKeeps(st: Store, parent: nat, d: nat, key: string)
    ensures d < |st.frames| ==> Lookup(NewFrame(st, parent).0, d, key) == Lookup(st, d, key)
    decreases d
  {
    var st' := NewFrame(st, parent).0;
    if d < |st.frames| {
      assert st'.frames[d] == st.frames[d];
      var f := st.frames[d];
      if key !in f.vars && f.parent.Some? && f.parent.value < d {
        NewFrameKeeps(st, parent, f.parent.value, key);
      }
    }
  }

  /** NewContext and Set keep parents before children. */
  lemma OrderedKept(st: Store, parent: nat, c: nat, key: string, v: Value)
    requires Ordered(st) && parent < |st.frames|
    ensures Ordered(NewFrame(st, parent).0)
    ensures Ordered(SetVar(st, c, key, v))
  {
    var st' := SetVar(st, c, key, v);
    forall i | 0 <= i < |st'.frames| && st'.frames[i].parent.Some?
      ensures st'.frames[i].parent.value < i
    {
      assert st'.frames[i].parent == st.frames[i].parent;
    }
  }

  // ---------------------------------------------------------------------
  // The root Context

  /** coreContext as core.go's init fills it (core.go:169-190). */
  const RootVars: map<string, Value> := map[
    "true" := Boolean(true),
    "false" := Boolean(false),
    "+" := Function(Native(AddFn)),
    "-" := Function(Native(SubFn)),
    "def" := Macro(DefMacro),
    "println" := Function(Native(PrintlnFn)),
    "fn" := Macro(FnMacro),
    "not" := Function(Native(NotFn)),
    "eq" := Function(Native(EqFn)),
    "if" := Macro(IfMacro),
    "head" := Function(Native(HeadFn)),
    "tail" := Function(Native(TailFn)),
    "conj" := Function(Native(ConjFn)),
    "do" := Macro(DoMacro),
    "time" := Macro(TimeMacro),
    "cons" := Function(Native(ConsFn)),
    "recur" := Function(Native(RecurFn)),
    "range" := Function(Native(RangeFn)),
    "odd?" := Function(Native(OddFn))
  ]

  /** The store before any program runs: the root Context alone. */
  const Initial := Store([Frame(RootVars, None)], 0)

  lemma InitialStore()
    ensures Ordered(Initial) && |Initial.frames| == 1
    ensures Lookup(Initial, 0, "if") == Some(Macro(IfMacro))
    ensures Lookup(Initial, 0, "+") == Some(Function(Native(AddFn)))
    ensures Lookup(Initial, 0, "x") == None
  {
  }
}
