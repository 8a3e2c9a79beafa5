/**
 * What evaluation does to the store of Contexts, how function calls loop
 * on `recur`, and what the native macros promise.
 */
module EvalProperties {
  import opened Wrappers
  import opened Values
  import opened Env
  import opened Semantics

  // ---------------------------------------------------------------------
  // Evaluation only adds Contexts, and writes only where the source does

  /** `st'` keeps every Context of `st`, with its parent, and changes the
      bindings of none except the root and `except`; closures are only
      ever added. */
  predicate Grows(st: Store, st': Store, except: nat) {
    |st.frames| <= |st'.frames| && st.fnCount <= st'.fnCount &&
    (forall i :: 0 <= i < |st.frames| ==> st'.frames[i].parent == st.frames[i].parent) &&
    (forall i :: 0 < i < |st.frames| && i != except ==> st'.frames[i] == st.frames[i])
  }

  lemma GrowsTrans(a: Store, b: Store, d: Store, x: nat)
    requires Grows(a, b, x) && Grows(b, d, x)
    ensures Grows(a, d, x)
  {
  }

  lemma SetVarGrows(st: Store, c: nat, key: string, v: Value)
    ensures Grows(st, SetVar(st, c, key, v), c)
  {
  }

  lemma {:induction false} BindAllGrows(st: Store, c: nat, params: seq<string>, args: seq<Value>)
    requires |params| == |args|
    ensures Grows(st, BindAll(st, c, params, args), c)
    decreases |params|
  {
    if params != [] {
      var st1 := SetVar(st, c, params[0], args[0]);
      BindAllGrows(st1, c, params[1..], args[1..]);
      GrowsTrans(st, st1, BindAll(st, c, params, args), c);
    }
  }

  lemma {:induction false} EvalGrows(fuel: nat, st: Store, c: nat, e: Value)
    ensures Eval(fuel, st, c, e).Done? ==> Grows(st, Eval(fuel, st, c, e).val.st, 0)
    decreases fuel, Size(e), 0
  {
    match e
    case Expression(es) => EvalFormGrows(fuel, st, c, es);
    case List(xs) => EvalSeqGrows(fuel, st, c, xs, true);
    case _ =>
  }

  lemma {:induction false} EvalSeqGrows(fuel: nat, st: Store, c: nat, es: seq<Value>, skipNil: bool)
    ensures EvalSeq(fuel, st, c, es, skipNil).Done? ==> Grows(st, EvalSeq(fuel, st, c, es, skipNil).val.st, 0)
    decreases fuel, SizeSeq(es), 1
  {
    if es != [] {
      var first := if skipNil && es[0].Nil? then Done(Evaluated(st, Nil)) else Eval(fuel, st, c, es[0]);
      if !(skipNil && es[0].Nil?) {
        EvalGrows(fuel, st, c, es[0]);
      }
      if first.Done? {
        var st1 := first.val.st;
        EvalSeqGrows(fuel, st1, c, es[1..], skipNil);
        var rest := EvalSeq(fuel, st1, c, es[1..], skipNil);
        if rest.Done? {
          GrowsTrans(st, st1, rest.val.st, 0);
        }
      }
    }
  }

  lemma {:induction false} EvalFormGrows(fuel: nat, st: Store, c: nat, es: seq<Value>)
    ensures EvalForm(fuel, st, c, es).Done? ==> Grows(st, EvalForm(fuel, st, c, es).val.st, 0)
    decreases fuel, SizeSeq(es), 2
  {
    if |es| >= 1 {
      EvalGrows(fuel, st, c, es[0]);
      var head := Eval(fuel, st, c, es[0]);
      if head.Done? {
        var st1 := head.val.st;
        match head.val.v
        case Macro(tag) =>
          ApplyMacroGrows(fuel, st1, c, tag, es);
          var r := ApplyMacro(fuel, st1, c, tag, es);
          if r.Done? {
            GrowsTrans(st, st1, r.val.st, 0);
          }
        case Function(fn) =>
          EvalSeqGrows(fuel, st1, c, es[1..], false);
          var args := EvalSeq(fuel, st1, c, es[1..], false);
          if args.Done? {
            GrowsTrans(st, st1, args.val.st, 0);
            ApplyGrows(fuel, args.val.st, fn, args.val.vs);
            var r := Apply(fuel, args.val.st, fn, args.val.vs);
            if r.Done? {
              GrowsTrans(st, args.val.st, r.val.st, 0);
            }
          }
        case _ =>
      }
    }
  }

  lemma {:induction false} ApplyGrows(fuel: nat, st: Store, fn: Callable, args: seq<Value>)
    ensures Apply(fuel, st, fn, args).Done? ==> Grows(st, Apply(fuel, st, fn, args).val.st, 0)
    decreases fuel, 0, 1
  {
    match fn
    case Native(p) =>
    case Closure(_, params, body, ctx) =>
      var (st', c) := NewFrame(st, ctx);
      CallLoopGrows(fuel, st', c, params, body, args);
      var r := CallLoop(fuel, st', c, params, body, args);
      if r.Done? {
        assert Grows(st, st', c);
        GrowsTrans(st, st', r.val.st, c);
      }
  }

  lemma {:induction false} CallLoopGrows(fuel: nat, st: Store, c: nat, params: seq<string>, body: Value, args: seq<Value>)
    ensures CallLoop(fuel, st, c, params, body, args).Done? ==>
      Grows(st, CallLoop(fuel, st, c, params, body, args).val.st, c)
    decreases fuel, 0, 0
  {
    if |args| == |params| && fuel > 0 {
      var st1 := BindAll(st, c, params, args);
      BindAllGrows(st, c, params, args);
      EvalGrows(fuel - 1, st1, c, body);
      var r := Eval(fuel - 1, st1, c, body);
      if r.Done? {
        GrowsTrans(st, st1, r.val.st, c);
        if r.val.v.Recur? {
          CallLoopGrows(fuel - 1, r.val.st, c, params, body, r.val.v.args);
          var r' := CallLoop(fuel - 1, r.val.st, c, params, body, r.val.v.args);
          if r'.Done? {
            GrowsTrans(st, r.val.st, r'.val.st, c);
          }
        }
      }
    }
  }

  lemma {:induction false} ApplyMacroGrows(fuel: nat, st: Store, c: nat, tag: MacroTag, es: seq<Value>)
    ensures ApplyMacro(fuel, st, c, tag, es).Done? ==> Grows(st, ApplyMacro(fuel, st, c, tag, es).val.st, 0)
    decreases fuel, SizeSeq(es), 1
  {
    match tag
    case DefMacro =>
      if |es| > 2 && es[1].Literal? {
        SizeSeqElem(es, 2);
        EvalGrows(fuel, st, c, es[2]);
        var r := Eval(fuel, st, c, es[2]);
        if r.Done? {
          SetVarGrows(r.val.st, 0, es[1].name, r.val.v);
          GrowsTrans(st, r.val.st, SetVar(r.val.st, 0, es[1].name, r.val.v), 0);
        }
      }
    case FnMacro =>
    case IfMacro =>
      if |es| >= 3 {
        SizeSeqElem(es, 1);
        SizeSeqElem(es, 2);
        EvalGrows(fuel, st, c, es[1]);
        var cond := Eval(fuel, st, c, es[1]);
        if cond.Done? {
          var st1 := cond.val.st;
          if !cond.val.v.Nil? && Truthy(cond.val.v) {
            EvalGrows(fuel, st1, c, es[2]);
            var r := Eval(fuel, st1, c, es[2]);
            if r.Done? {
              GrowsTrans(st, st1, r.val.st, 0);
            }
          } else if |es| == 4 && !es[3].Nil? {
            SizeSeqElem(es, 3);
            EvalGrows(fuel, st1, c, es[3]);
            var r := Eval(fuel, st1, c, es[3]);
            if r.Done? {
              GrowsTrans(st, st1, r.val.st, 0);
            }
          }
        }
      }
    case DoMacro =>
      if |es| >= 2 {
        SizeSeqElem(es, 0);
        EvalSeqGrows(fuel, st, c, es[1..], false);
      }
    case TimeMacro =>
      if |es| == 2 {
        SizeSeqElem(es, 1);
        EvalGrows(fuel, st, c, es[1]);
      }
  }

  /** Evaluating a form changes no Context that existed before it, other
      than the root, which `def` writes. */
  lemma EvalKeepsContexts(fuel: nat, st: Store, c: nat, e: Value, i: nat)
    requires Eval(fuel, st, c, e).Done? && 0 < i < |st.frames|
    ensures i < |Eval(fuel, st, c, e).val.st.frames|
    ensures Eval(fuel, st, c, e).val.st.frames[i] == st.frames[i]
  {
    EvalGrows(fuel, st, c, e);
  }

  // ---------------------------------------------------------------------
  // Calls

  /** Call never returns a Recur: a Recur result sends the loop round
      again. */
  lemma {:induction false} CallNeverRecur(fuel: nat, st: Store, c: nat, params: seq<string>, body: Value, args: seq<Value>)
    ensures CallLoop(fuel, st, c, params, body, args).Done? ==>
      !CallLoop(fuel, st, c, params, body, args).val.v.Recur?
    decreases fuel
  {
    if |args| == |params| && fuel > 0 {
      var r := Eval(fuel - 1, BindAll(st, c, params, args), c, body);
      if r.Done? && r.val.v.Recur? {
        CallNeverRecur(fuel - 1, r.val.st, c, params, body, r.val.v.args);
      }
    }
  }

  /** Calling a closure never yields a Recur either. */
  lemma ClosureNeverRecur(fuel: nat, st: Store, f: Callable, args: seq<Value>)
    requires f.Closure?
    ensures Apply(fuel, st, f, args).Done? ==> !Apply(fuel, st, f, args).val.v.Recur?
  {
    var (st', c) := NewFrame(st, f.ctx);
    CallNeverRecur(fuel, st', c, f.params, f.body, args);
  }

  /** With the wrong number of arguments a closure returns nil without
      evaluating its body: the only trace is the new, empty Context. The
      check is made again on every `recur`. */
  lemma ArityMismatch(fuel: nat, st: Store, f: Callable, args: seq<Value>)
    requires f.Closure? && |args| != |f.params|
    ensures Apply(fuel, st, f, args) == Done(Evaluated(NewFrame(st, f.ctx).0, Nil))
  {
  }

  lemma RecurArityMismatch(fuel: nat, st: Store, c: nat, params: seq<string>, body: Value, args: seq<Value>)
    requires |args| == |params| && fuel > 0
    requires var r := Eval(fuel - 1, BindAll(st, c, params, args), c, body);
      r.Done? && r.val.v.Recur? && |r.val.v.args| != |params|
    ensures CallLoop(fuel, st, c, params, body, args) ==
      Done(Evaluated(Eval(fuel - 1, BindAll(st, c, params, args), c, body).val.st, Nil))
  {
  }

  /** Binding distinct parameters makes each one name its argument in
      the call's Context. */
  lemma {:induction false} BindAllLookup(st: Store, c: nat, params: seq<string>, args: seq<Value>, i: nat)
    requires |params| == |args| && c < |st.frames| && i < |params|
    requires forall j, k :: 0 <= j < k < |params| ==> params[j] != params[k]
    ensures Lookup(BindAll(st, c, params, args), c, params[i]) == Some(args[i])
    decreases |params|
  {
    var st1 := SetVar(st, c, params[0], args[0]);
    if i == 0 {
      BindAllKeeps(st1, c, params[1..], args[1..], params[0]);
      GetAfterSet(st, c, params[0], args[0]);
    } else {
      BindAllLookup(st1, c, params[1..], args[1..], i - 1);
    }
  }

  /** Binding parameters other than `key` leaves `key`'s lookup alone. */
  lemma {:induction false} BindAllKeeps(st: Store, c: nat, params: seq<string>, args: seq<Value>, key: string)
    requires |params| == |args|
    requires forall j :: 0 <= j < |params| ==> params[j] != key
    ensures Lookup(BindAll(st, c, params, args), c, key) == Lookup(st, c, key)
    decreases |params|
  {
    if params != [] {
      var st1 := SetVar(st, c, params[0], args[0]);
      BindAllKeeps(st1, c, params[1..], args[1..], key);
      GetOtherAfterSet(st, c, params[0], key, args[0]);
    }
  }

  // ---------------------------------------------------------------------
  // The native macros

  /** `def` evaluates its value in the calling Context, binds it in the
      root Context and returns it; a short form or a name that is not a
      Literal binds nothing and returns nil. */
  lemma DefBindsRoot(fuel: nat, st: Store, c: nat, es: seq<Value>)
    requires |st.frames| > 0
    ensures var r := ApplyMacro(fuel, st, c, DefMacro, es);
      (|es| > 2 && es[1].Literal? ==>
        var v := Eval(fuel, st, c, es[2]);
        (r.Done? <==> v.Done?) &&
        (r.Done? ==> r.val.v == v.val.v && Lookup(r.val.st, 0, es[1].name) == Some(r.val.v))) &&
      (!(|es| > 2 && es[1].Literal?) ==> r == Done(Evaluated(st, Nil)))
  {
    if |es| > 2 && es[1].Literal? {
      SizeSeqElem(es, 2);
      var v := Eval(fuel, st, c, es[2]);
      if v.Done? {
        EvalGrows(fuel, st, c, es[2]);
        GetAfterSet(v.val.st, 0, es[1].name, v.val.v);
      }
    }
  }

  /** `if` evaluates its condition once and then at most one branch: the
      second element when the condition is non-nil and true, the third
      only when the form has exactly four elements and it is not nil;
      otherwise the result is nil. */
  lemma IfBranch(fuel: nat, st: Store, c: nat, es: seq<Value>)
    requires |es| >= 3
    requires Eval(fuel, st, c, es[1]).Done?
    ensures var cond := Eval(fuel, st, c, es[1]).val;
      var r := ApplyMacro(fuel, st, c, IfMacro, es);
      (!cond.v.Nil? && Truthy(cond.v) ==> r == Eval(fuel, cond.st, c, es[2])) &&
      (!(!cond.v.Nil? && Truthy(cond.v)) && |es| == 4 && !es[3].Nil? ==> r == Eval(fuel, cond.st, c, es[3])) &&
      (!(!cond.v.Nil? && Truthy(cond.v)) && (|es| != 4 || es[3].Nil?) ==> r == Done(Evaluated(cond.st, Nil)))
  {
  }

  /** An `if` with fewer than three elements is nil, evaluating nothing. */
  lemma IfTooShort(fuel: nat, st: Store, c: nat, es: seq<Value>)
    requires |es| < 3
    ensures ApplyMacro(fuel, st, c, IfMacro, es) == Done(Evaluated(st, Nil))
  {
  }

  /** `do` evaluates its forms in order and returns the last value. */
  lemma DoLast(fuel: nat, st: Store, c: nat, es: seq<Value>)
    requires |es| >= 2
    ensures var r := ApplyMacro(fuel, st, c, DoMacro, es);
      var all := EvalSeq(fuel, st, c, es[1..], false);
      (r.Done? <==> all.Done?) &&
      (r.Done? ==> r.val.st == all.val.st && r.val.v == all.val.vs[|es| - 2])
  {
  }

  /** `fn` makes a closure over the Context it is evaluated in, with a new
      identity, without evaluating anything. */
  lemma FnCaptures(fuel: nat, st: Store, c: nat, es: seq<Value>)
    requires |es| >= 3 && es[1].Expression?
    requires forall i :: 0 <= i < |es[1].elems| ==> es[1].elems[i].Literal?
    ensures var r := ApplyMacro(fuel, st, c, FnMacro, es);
      r.Done? && r.val.v.Function? && r.val.v.fn.Closure? &&
      r.val.v.fn.ctx == c && r.val.v.fn.body == es[2] &&
      r.val.v.fn.id == st.fnCount && r.val.st == st.(fnCount := st.fnCount + 1) &&
      |r.val.v.fn.params| == |es[1].elems|
  {
    NamesLength(es[1].elems);
  }

  lemma {:induction false} NamesLength(ps: seq<Value>)
    requires forall i :: 0 <= i < |ps| ==> ps[i].Literal?
    ensures |Names(ps)| == |ps| && forall i :: 0 <= i < |ps| ==> Names(ps)[i] == ps[i].name
  {
    if ps != [] {
      NamesLength(ps[1..]);
    }
  }

  // ---------------------------------------------------------------------
  // Evaluation order

  /** Evaluating `a + b` left to right is evaluating `a`, then `b` in the
      store `a` leaves. */
  lemma {:induction false} EvalSeqAppend(fuel: nat, st: Store, c: nat, a: seq<Value>, b: seq<Value>, skipNil: bool)
    ensures EvalSeq(fuel, st, c, a + b, skipNil) ==
      match EvalSeq(fuel, st, c, a, skipNil)
      case Done(ra) =>
        (match EvalSeq(fuel, ra.st, c, b, skipNil)
         case Done(rb) => Done(EvaluatedAll(rb.st, ra.vs + rb.vs))
         case Panic(f) => Panic(f)
         case OutOfFuel => OutOfFuel)
      case Panic(f) => Panic(f)
      case OutOfFuel => OutOfFuel
    decreases |a|
  {
    if a == [] {
      assert a + b == b;
      var rb := EvalSeq(fuel, st, c, b, skipNil);
      if rb.Done? {
        assert [] + rb.val.vs == rb.val.vs;
      }
    } else {
      assert (a + b)[0] == a[0];
      assert (a + b)[1..] == a[1..] + b;
      var first := if skipNil && a[0].Nil? then Done(Evaluated(st, Nil)) else Eval(fuel, st, c, a[0]);
      if first.Done? {
        EvalSeqAppend(fuel, first.val.st, c, a[1..], b, skipNil);
        var ra := EvalSeq(fuel, first.val.st, c, a[1..], skipNil);
        if ra.Done? {
          var rb := EvalSeq(fuel, ra.val.st, c, b, skipNil);
          if rb.Done? {
            assert [first.val.v] + (ra.val.vs + rb.val.vs) == ([first.val.v] + ra.val.vs) + rb.val.vs;
          }
        }
      }
    }
  }

  /** Values that are not forms evaluate to themselves; a Literal to its
      binding, or to itself when unbound. */
  lemma SelfEvaluating(fuel: nat, st: Store, c: nat, e: Value)
    ensures (e.Number? || e.Boolean? || e.Function? || e.Macro? || e.Recur?) ==>
      Eval(fuel, st, c, e) == Done(Evaluated(st, e))
    ensures e.Literal? && Lookup(st, c, e.name).None? ==> Eval(fuel, st, c, e) == Done(Evaluated(st, e))
    ensures e.Literal? && Lookup(st, c, e.name).Some? ==>
      Eval(fuel, st, c, e) == Done(Evaluated(st, Lookup(st, c, e.name).value))
    ensures e == Expression([]) ==> Eval(fuel, st, c, e) == Done(Evaluated(st, Nil))
  {
  }

  // ---------------------------------------------------------------------
  // Fuel only bounds the run

  /** More fuel never changes a result that was reached: the fuel bound
      cuts runs short but does not alter them. */
  lemma {:induction false} EvalFuel(fuel: nat, more: nat, st: Store, c: nat, e: Value)
    requires fuel <= more
    ensures Eval(fuel, st, c, e).OutOfFuel? || Eval(more, st, c, e) == Eval(fuel, st, c, e)
    decreases fuel, Size(e), 0
  {
    match e
    case Expression(es) => EvalFormFuel(fuel, more, st, c, es);
    case List(xs) => EvalSeqFuel(fuel, more, st, c, xs, true);
    case _ =>
  }

  lemma {:induction false} EvalSeqFuel(fuel: nat, more: nat, st: Store, c: nat, es: seq<Value>, skipNil: bool)
    requires fuel <= more
    ensures EvalSeq(fuel, st, c, es, skipNil).OutOfFuel? ||
      EvalSeq(more, st, c, es, skipNil) == EvalSeq(fuel, st, c, es, skipNil)
    decreases fuel, SizeSeq(es), 1
  {
    if es != [] {
      if !(skipNil && es[0].Nil?) {
        EvalFuel(fuel, more, st, c, es[0]);
      }
      var first := if skipNil && es[0].Nil? then Done(Evaluated(st, Nil)) else Eval(fuel, st, c, es[0]);
      if first.Done? {
        EvalSeqFuel(fuel, more, first.val.st, c, es[1..], skipNil);
      }
    }
  }

  lemma {:induction false} EvalFormFuel(fuel: nat, more: nat, st: Store, c: nat, es: seq<Value>)
    requires fuel <= more
    ensures EvalForm(fuel, st, c, es).OutOfFuel? || EvalForm(more, st, c, es) == EvalForm(fuel, st, c, es)
    decreases fuel, SizeSeq(es), 2
  {
    if |es| >= 1 {
      EvalFuel(fuel, more, st, c, es[0]);
      var head := Eval(fuel, st, c, es[0]);
      if head.Done? {
        var st1 := head.val.st;
        match head.val.v
        case Macro(tag) => ApplyMacroFuel(fuel, more, st1, c, tag, es);
        case Function(fn) =>
          EvalSeqFuel(fuel, more, st1, c, es[1..], false);
          var args := EvalSeq(fuel, st1, c, es[1..], false);
          if args.Done? {
            ApplyFuel(fuel, more, args.val.st, fn, args.val.vs);
          }
        case _ =>
      }
    }
  }

  lemma {:induction false} ApplyFuel(fuel: nat, more: nat, st: Store, fn: Callable, args: seq<Value>)
    requires fuel <= more
    ensures Apply(fuel, st, fn, args).OutOfFuel? || Apply(more, st, fn, args) == Apply(fuel, st, fn, args)
    decreases fuel, 0, 1
  {
    match fn
    case Native(p) =>
    case Closure(_, params, body, ctx) =>
      var (st', c) := NewFrame(st, ctx);
      CallLoopFuel(fuel, more, st', c, params, body, args);
  }

  lemma {:induction false} CallLoopFuel(fuel: nat, more: nat, st: Store, c: nat, params: seq<string>, body: Value, args: seq<Value>)
    requires fuel <= more
    ensures CallLoop(fuel, st, c, params, body, args).OutOfFuel? ||
      CallLoop(more, st, c, params, body, args) == CallLoop(fuel, st, c, params, body, args)
    decreases fuel, 0, 0
  {
    if |args| == |params| && fuel > 0 {
      var st1 := BindAll(st, c, params, args);
      EvalFuel(fuel - 1, more - 1, st1, c, body);
      var r := Eval(fuel - 1, st1, c, body);
      if r.Done? && r.val.v.Recur? {
        CallLoopFuel(fuel - 1, more - 1, r.val.st, c, params, body, r.val.v.args);
      }
    }
  }

  lemma {:induction false} ApplyMacroFuel(fuel: nat, more: nat, st: Store, c: nat, tag: MacroTag, es: seq<Value>)
    requires fuel <= more
    ensures ApplyMacro(fuel, st, c, tag, es).OutOfFuel? ||
      ApplyMacro(more, st, c, tag, es) == ApplyMacro(fuel, st, c, tag, es)
    decreases fuel, SizeSeq(es), 1
  {
    match tag
    case DefMacro =>
      if |es| > 2 && es[1].Literal? {
        SizeSeqElem(es, 2);
        EvalFuel(fuel, more, st, c, es[2]);
      }
    case FnMacro =>
    case IfMacro =>
      if |es| >= 3 {
        SizeSeqElem(es, 1);
        SizeSeqElem(es, 2);
        EvalFuel(fuel, more, st, c, es[1]);
        var cond := Eval(fuel, st, c, es[1]);
        if cond.Done? {
          EvalFuel(fuel, more, cond.val.st, c, es[2]);
          if |es| == 4 {
            SizeSeqElem(es, 3);
            EvalFuel(fuel, more, cond.val.st, c, es[3]);
          }
        }
      }
    case DoMacro =>
      if |es| >= 2 {
        SizeSeqElem(es, 0);
        EvalSeqFuel(fuel, more, st, c, es[1..], false);
      }
    case TimeMacro =>
      if |es| == 2 {
        SizeSeqElem(es, 1);
        EvalFuel(fuel, more, st, c, es[1]);
      }
  }
}
