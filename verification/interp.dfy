/**
 * The evaluator as the Go code runs it: Contexts are updated in place,
 * arguments are collected into an array, `do` and List.Eval loop over
 * their elements, and function.Call is a loop that rebinds its one
 * Context on every `recur`. Each method is proved to compute what the
 * functions of module Semantics say, and to leave the store they say.
 */
module Interp {
  import opened Wrappers
  import opened Values
  import opened Env
  import Sem = Semantics
  import Prims
  import EvalProperties

  /** The values of an evaluation that has already produced `vs`. */
  function Prefixed(vs: seq<Value>, o: Outcome<Sem.EvaluatedAll>): Outcome<Sem.EvaluatedAll>
  {
    match o
    case Done(r) => Done(Sem.EvaluatedAll(r.st, vs + r.vs))
    case Panic(f) => Panic(f)
    case OutOfFuel => OutOfFuel
  }

  lemma PrefixedNone(o: Outcome<Sem.EvaluatedAll>)
    ensures Prefixed([], o) == o
  {
    if o.Done? {
      assert [] + o.val.vs == o.val.vs;
    }
  }

  /** Evaluating `es[i..]` is evaluating `es[i]`, then `es[i + 1..]`. */
  lemma EvalSeqUnfold(fuel: nat, st: Store, c: nat, es: seq<Value>, i: nat, skipNil: bool, vs: seq<Value>)
    requires i < |es|
    ensures Prefixed(vs, Sem.EvalSeq(fuel, st, c, es[i..], skipNil)) ==
      match (if skipNil && es[i].Nil? then Done(Sem.Evaluated(st, Nil)) else Sem.Eval(fuel, st, c, es[i]))
      case Done(f) => Prefixed(vs + [f.v], Sem.EvalSeq(fuel, f.st, c, es[i + 1..], skipNil))
      case Panic(x) => Panic(x)
      case OutOfFuel => OutOfFuel
  {
    assert es[i..][0] == es[i];
    assert es[i..][1..] == es[i + 1..];
    var first := if skipNil && es[i].Nil? then Done(Sem.Evaluated(st, Nil)) else Sem.Eval(fuel, st, c, es[i]);
    if first.Done? {
      var rest := Sem.EvalSeq(fuel, first.val.st, c, es[i + 1..], skipNil);
      if rest.Done? {
        assert vs + ([first.val.v] + rest.val.vs) == (vs + [first.val.v]) + rest.val.vs;
      }
    }
  }

  /** At the end of the elements, nothing is left to evaluate. */
  lemma EvalSeqEnd(fuel: nat, st: Store, c: nat, es: seq<Value>, skipNil: bool, vs: seq<Value>)
    ensures Prefixed(vs, Sem.EvalSeq(fuel, st, c, es[|es|..], skipNil)) == Done(Sem.EvaluatedAll(st, vs))
  {
    assert es[|es|..] == [];
    assert vs + [] == vs;
  }

  /**
   * The interpreter's heap: every Context created so far, and the number
   * of closures created. Context 0 is coreContext.
   */
  class Interpreter {
    var frames: seq<Frame>
    var fnCount: nat

    function State(): Store
      reads this
    {
      Store(frames, fnCount)
    }

    /** `r` and the interpreter's state are what `o` says. */
    ghost predicate Agrees(r: Outcome<Value>, o: Outcome<Sem.Evaluated>)
      reads this
    {
      match o
      case Done(ev) => r == Done(ev.v) && State() == ev.st
      case Panic(f) => r == Panic(f)
      case OutOfFuel => r == OutOfFuel
    }

    /** core.go's init: coreContext with the native functions and macros. */
    constructor ()
      ensures State() == Initial
    {
      frames := Initial.frames;
      fnCount := 0;
    }

    /** NewContext (core.go:19-24). */
    method NewContext(parent: nat) returns (c: nat)
      modifies this
      ensures (State(), c) == NewFrame(old(State()), parent)
    {
      c := |frames|;
      frames := frames + [Frame(map[], Some(parent))];
    }

    /** Context.Set (core.go:45-47). */
    method Set(c: nat, key: string, v: Value)
      modifies this
      ensures State() == SetVar(old(State()), c, key, v)
    {
      if c < |frames| {
        frames := frames[c := frames[c].(vars := frames[c].vars[key := v])];
      }
    }

    /** The binding loop of function.Call (core.go:82-84). */
    method Bind(c: nat, params: seq<string>, args: seq<Value>)
      requires |params| == |args|
      modifies this
      ensures State() == Sem.BindAll(old(State()), c, params, args)
    {
      var i := 0;
      while i < |args|
        invariant 0 <= i <= |args|
        invariant Sem.BindAll(State(), c, params[i..], args[i..]) == Sem.BindAll(old(State()), c, params, args)
      {
        assert params[i..][0] == params[i] && params[i..][1..] == params[i + 1..];
        assert args[i..][0] == args[i] && args[i..][1..] == args[i + 1..];
        Set(c, params[i], args[i]);
        i := i + 1;
      }
      assert params[i..] == [];
    }

    /** `e.Eval(c)`. */
    method Eval(fuel: nat, c: nat, e: Value) returns (r: Outcome<Value>)
      modifies this
      ensures Agrees(r, Sem.Eval(fuel, old(State()), c, e))
      decreases fuel, Size(e), 0
    {
      match e
      case Nil =>
        return Panic(NilDereference);
      case Literal(name) =>
        var found := Lookup(State(), c, name);
        if found.Some? {
          return Done(found.value);
        }
        return Done(e);
      case Expression(es) =>
        r := EvalForm(fuel, c, es);
      case List(xs) =>
        r := EvalList(fuel, c, xs);
      case _ =>
        return Done(e);
    }

    /** List.Eval (list.go:144-160): a copy of the list whose non-nil
        elements are replaced, in order, by their values. */
    method EvalList(fuel: nat, c: nat, xs: seq<Value>) returns (r: Outcome<Value>)
      modifies this
      ensures Agrees(r, Sem.Eval(fuel, old(State()), c, List(xs)))
      decreases fuel, SizeSeq(xs), 1
    {
      ghost var st0 := State();
      var items := xs;
      var i := 0;
      PrefixedNone(Sem.EvalSeq(fuel, st0, c, xs, true));
      while i < |xs|
        invariant 0 <= i <= |xs| && |items| == |xs|
        invariant items[i..] == xs[i..]
        invariant Sem.EvalSeq(fuel, st0, c, xs, true) == Prefixed(items[..i], Sem.EvalSeq(fuel, State(), c, xs[i..], true))
      {
        EvalSeqUnfold(fuel, State(), c, xs, i, true, items[..i]);
        assert items[i] == xs[i];
        if !items[i].Nil? {
          SizeSeqElem(xs, i);
          var v :- Eval(fuel, c, items[i]);
          items := items[i := v];
        }
        assert items[..i + 1] == items[..i] + [items[i]];
        i := i + 1;
      }
      EvalSeqEnd(fuel, State(), c, xs, true, items);
      assert items[..i] == items;
      return Done(List(items));
    }

    /** Expression.Eval (parser.go:91-111), with the argument array. */
    method EvalForm(fuel: nat, c: nat, es: seq<Value>) returns (r: Outcome<Value>)
      modifies this
      ensures Agrees(r, Sem.EvalForm(fuel, old(State()), c, es))
      decreases fuel, SizeSeq(es), 3
    {
      if |es| < 1 {
        return Done(Nil);
      }
      SizeSeqElem(es, 0);
      var f :- Eval(fuel, c, es[0]);
      if f.Macro? {
        r := Create(fuel, c, f.tag, es);
        return;
      }
      if !f.Function? {
        return Done(Nil);
      }
      ghost var st1 := State();
      var args := new Value[|es| - 1](_ => Nil);
      var i := 1;
      PrefixedNone(Sem.EvalSeq(fuel, st1, c, es[1..], false));
      assert es[1..] == es[1..][0..];
      while i < |es|
        invariant 1 <= i <= |es|
        invariant Sem.EvalSeq(fuel, st1, c, es[1..], false) ==
          Prefixed(args[..i - 1], Sem.EvalSeq(fuel, State(), c, es[i..], false))
      {
        EvalSeqUnfold(fuel, State(), c, es, i, false, args[..i - 1]);
        SizeSeqElem(es, i);
        var v :- Eval(fuel, c, es[i]);
        args[i - 1] := v;
        assert args[..i] == args[..i - 1] + [v];
        i := i + 1;
      }
      EvalSeqEnd(fuel, State(), c, es, false, args[..]);
      assert args[..i - 1] == args[..];
      r := Apply(fuel, f.fn, args[..]);
    }

    /** `fun.Call(args)`. */
    method Apply(fuel: nat, fn: Callable, args: seq<Value>) returns (r: Outcome<Value>)
      modifies this
      ensures Agrees(r, Sem.Apply(fuel, old(State()), fn, args))
      decreases fuel, 0, 1
    {
      match fn
      case Native(p) =>
        r := CallNative(p, args);
      case Closure(_, params, body, ctx) =>
        var c := NewContext(ctx);
        r := Call(fuel, c, params, body, args);
    }

    /** function.Call (core.go:73-94): one Context for the whole call, and
        a loop that rebinds it with the arguments of each Recur. */
    method Call(fuel: nat, c: nat, params: seq<string>, body: Value, args: seq<Value>) returns (r: Outcome<Value>)
      modifies this
      ensures Agrees(r, Sem.CallLoop(fuel, old(State()), c, params, body, args))
      decreases fuel, 0, 0
    {
      var f: nat := fuel;
      var current := args;
      while true
        invariant f <= fuel
        invariant Sem.CallLoop(fuel, old(State()), c, params, body, args) ==
          Sem.CallLoop(f, State(), c, params, body, current)
        decreases f
      {
        if |current| != |params| {
          return Done(Nil);
        }
        if f == 0 {
          return OutOfFuel;
        }
        Bind(c, params, current);
        var res :- Eval(f - 1, c, body);
        if !res.Recur? {
          return Done(res);
        }
        current := res.args;
        f := f - 1;
      }
    }

    /** `m.Create(c, e.Elements)`. */
    method Create(fuel: nat, c: nat, tag: MacroTag, es: seq<Value>) returns (r: Outcome<Value>)
      modifies this
      ensures Agrees(r, Sem.ApplyMacro(fuel, old(State()), c, tag, es))
      decreases fuel, SizeSeq(es), 2
    {
      match tag
      case DefMacro => r := Def(fuel, c, es);
      case FnMacro => r := Fn(fuel, c, es);
      case IfMacro => r := If(fuel, c, es);
      case DoMacro => r := Do(fuel, c, es);
      case TimeMacro => r := Time(fuel, c, es);
    }

    /** coreDef (core.go:221-232): the value is evaluated in `c` and bound
        in coreContext. */
    method Def(fuel: nat, c: nat, es: seq<Value>) returns (r: Outcome<Value>)
      modifies this
      ensures Agrees(r, Sem.ApplyMacro(fuel, old(State()), c, DefMacro, es))
      decreases fuel, SizeSeq(es), 1
    {
      if |es| > 2 && es[1].Literal? {
        SizeSeqElem(es, 2);
        var v :- Eval(fuel, c, es[2]);
        Set(0, es[1].name, v);
        return Done(v);
      }
      return Done(Nil);
    }

    /** coreFn (core.go:299-318): collects the parameter names into an
        array, and allocates the closure. */
    method Fn(fuel: nat, c: nat, es: seq<Value>) returns (r: Outcome<Value>)
      modifies this
      ensures Agrees(r, Sem.ApplyMacro(fuel, old(State()), c, FnMacro, es))
    {
      if |es| < 3 {
        return Done(Nil);
      }
      if !es[1].Expression? {
        return Panic(FailedTypeAssertion);
      }
      var ps := es[1].elems;
      var largs := new string[|ps|];
      var i := 0;
      while i < |ps|
        invariant 0 <= i <= |ps|
        invariant forall j :: 0 <= j < i ==> ps[j].Literal? && largs[j] == ps[j].name
        invariant State() == old(State())
      {
        if !ps[i].Literal? {
          return Done(Nil);
        }
        largs[i] := ps[i].name;
        i := i + 1;
      }
      assert !exists j :: 0 <= j < |ps| && !ps[j].Literal?;
      EvalProperties.NamesLength(ps);
      assert largs[..] == Sem.Names(ps);
      var f := Closure(fnCount, largs[..], es[2], c);
      fnCount := fnCount + 1;
      return Done(Function(f));
    }

    /** ifMacro (core.go:320-340). */
    method If(fuel: nat, c: nat, es: seq<Value>) returns (r: Outcome<Value>)
      modifies this
      ensures Agrees(r, Sem.ApplyMacro(fuel, old(State()), c, IfMacro, es))
      decreases fuel, SizeSeq(es), 1
    {
      if |es| < 3 {
        return Done(Nil);
      }
      SizeSeqElem(es, 1);
      SizeSeqElem(es, 2);
      var bad := if |es| == 4 then es[3] else Nil;
      var res :- Eval(fuel, c, es[1]);
      if !res.Nil? && Truthy(res) {
        r := Eval(fuel, c, es[2]);
      } else if !bad.Nil? {
        SizeSeqElem(es, 3);
        r := Eval(fuel, c, bad);
      } else {
        r := Done(Nil);
      }
    }

    /** doMacro (core.go:406-416): evaluates every form, keeping the last
        value. */
    method Do(fuel: nat, c: nat, es: seq<Value>) returns (r: Outcome<Value>)
      modifies this
      ensures Agrees(r, Sem.ApplyMacro(fuel, old(State()), c, DoMacro, es))
      decreases fuel, SizeSeq(es), 1
    {
      if |es| < 2 {
        return Done(Nil);
      }
      ghost var st0 := State();
      ghost var vs: seq<Value> := [];
      var res: Value := Nil;
      var i := 1;
      PrefixedNone(Sem.EvalSeq(fuel, st0, c, es[1..], false));
      assert es[1..] == es[1..][0..];
      while i < |es|
        invariant 1 <= i <= |es| && |vs| == i - 1
        invariant i > 1 ==> res == vs[i - 2]
        invariant Sem.EvalSeq(fuel, st0, c, es[1..], false) ==
          Prefixed(vs, Sem.EvalSeq(fuel, State(), c, es[i..], false))
      {
        EvalSeqUnfold(fuel, State(), c, es, i, false, vs);
        SizeSeqElem(es, i);
        res :- Eval(fuel, c, es[i]);
        vs := vs + [res];
        i := i + 1;
      }
      EvalSeqEnd(fuel, State(), c, es, false, vs);
      return Done(res);
    }

    /** coreTime (core.go:418-427), without the clock and the output. */
    method Time(fuel: nat, c: nat, es: seq<Value>) returns (r: Outcome<Value>)
      modifies this
      ensures Agrees(r, Sem.ApplyMacro(fuel, old(State()), c, TimeMacro, es))
      decreases fuel, SizeSeq(es), 1
    {
      if |es| != 2 {
        return Done(Nil);
      }
      SizeSeqElem(es, 1);
      r := Eval(fuel, c, es[1]);
    }

    /** `cf(args)`: the looping natives run their loops. */
    method CallNative(p: Prim, args: seq<Value>) returns (r: Outcome<Value>)
      ensures r == Prims.Native(p, args)
    {
      match p
      case AddFn =>
        var v := Prims.Add(args);
        r := Done(v);
      case SubFn =>
        var v := Prims.Sub(args);
        r := Done(v);
      case RangeFn =>
        r := Prims.RangeOf(args);
      case _ =>
        r := Prims.Native(p, args);
    }
  }
}
