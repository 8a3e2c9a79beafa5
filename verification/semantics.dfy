/**
 * Evaluation: the `Eval` methods of parser.go and list.go, `function.Call`
 * and the native macros of core.go, as one family of mutually recursive
 * functions over a store of Contexts.
 *
 * A user program may not terminate, so every evaluation of a function
 * body consumes one unit of `fuel`, and running out is the outcome
 * OutOfFuel. A Go runtime panic is the outcome Panic and ends the run;
 * the store it leaves behind is not modelled.
 */
module Semantics {
  import opened Wrappers
  import opened Values
  import opened Env
  import Prims

  /** A value and the store after computing it. */
  datatype Evaluated = Evaluated(st: Store, v: Value)

  /** Several values, computed left to right, and the store after them. */
  datatype EvaluatedAll = EvaluatedAll(st: Store, vs: seq<Value>)

  /** `e.Eval(c)` for every variant (parser.go:58-60, 91-111, 131-137,
      157-159, 184-186; list.go:144-160; core.go:108-110, 134-136,
      159-161). Calling a method on a nil Sexpr panics. */
  function Eval(fuel: nat, st: Store, c: nat, e: Value): Outcome<Evaluated>
    decreases fuel, Size(e), 0
  {
    match e
    case Nil => Panic(NilDereference)
    case Literal(name) =>
      Done(Evaluated(st, match Lookup(st, c, name) case Some(v) => v case None => e))
    case Expression(es) => EvalForm(fuel, st, c, es)
    case List(xs) =>
      var r :- EvalSeq(fuel, st, c, xs, true);
      Done(Evaluated(r.st, List(r.vs)))
    case _ => Done(Evaluated(st, e))
  }

  /** Evaluates `es` in order. List.Eval leaves nil elements alone
      (`skipNil`); everywhere else a nil element is evaluated, and
      panics. */
  function EvalSeq(fuel: nat, st: Store, c: nat, es: seq<Value>, skipNil: bool): (r: Outcome<EvaluatedAll>)
    ensures r.Done? ==> |r.val.vs| == |es|
    decreases fuel, SizeSeq(es), 1
  {
    if es == [] then Done(EvaluatedAll(st, []))
    else
      var first :- if skipNil && es[0].Nil? then Done(Evaluated(st, Nil)) else Eval(fuel, st, c, es[0]);
      var rest :- EvalSeq(fuel, first.st, c, es[1..], skipNil);
      Done(EvaluatedAll(rest.st, [first.v] + rest.vs))
  }

  /** Expression.Eval (parser.go:91-111): evaluates the head; a macro gets
      the whole unevaluated form, a function gets the other elements
      evaluated left to right; any other head gives nil. */
  function EvalForm(fuel: nat, st: Store, c: nat, es: seq<Value>): Outcome<Evaluated>
    decreases fuel, SizeSeq(es), 2
  {
    if |es| < 1 then Done(Evaluated(st, Nil))
    else
      var head :- Eval(fuel, st, c, es[0]);
      match head.v
      case Macro(tag) => ApplyMacro(fuel, head.st, c, tag, es)
      case Function(fn) =>
        var args :- EvalSeq(fuel, head.st, c, es[1..], false);
        Apply(fuel, args.st, fn, args.vs)
      case _ => Done(Evaluated(head.st, Nil))
  }

  /** `fun.Call(args)`: a native is applied directly (core.go:138-140); a
      closure gets a new Context whose parent is the one it captured
      (core.go:73-74). */
  function Apply(fuel: nat, st: Store, fn: Callable, args: seq<Value>): Outcome<Evaluated>
    decreases fuel, 0, 1
  {
    match fn
    case Native(p) =>
      var v :- Prims.Native(p, args);
      Done(Evaluated(st, v))
    case Closure(_, params, body, ctx) =>
      var (st', c) := NewFrame(st, ctx);
      CallLoop(fuel, st', c, params, body, args)
  }

  /** Binds the parameters to the arguments in order in Context `c`
      (core.go:82-84). */
  function BindAll(st: Store, c: nat, params: seq<string>, args: seq<Value>): Store
    requires |params| == |args|
    decreases |params|
  {
    if params == [] then st
    else BindAll(SetVar(st, c, params[0], args[0]), c, params[1..], args[1..])
  }

  /** The loop of function.Call (core.go:77-92): check the number of
      arguments, bind them, evaluate the body, and go round again with
      the arguments of a Recur result. */
  function CallLoop(fuel: nat, st: Store, c: nat, params: seq<string>, body: Value, args: seq<Value>): Outcome<Evaluated>
    decreases fuel, 0, 0
  {
    if |args| != |params| then Done(Evaluated(st, Nil))
    else if fuel == 0 then OutOfFuel
    else
      var r :- Eval(fuel - 1, BindAll(st, c, params, args), c, body);
      if r.v.Recur? then CallLoop(fuel - 1, r.st, c, params, body, r.v.args)
      else Done(r)
  }

  /** The names of a parameter list all of whose elements are Literals. */
  function Names(ps: seq<Value>): seq<string>
    requires forall i :: 0 <= i < |ps| ==> ps[i].Literal?
  {
    if ps == [] then [] else [ps[0].name] + Names(ps[1..])
  }

  /** `m.Create(c, e.Elements)` for each native macro; `es[0]` is the
      macro's own name. */
  function ApplyMacro(fuel: nat, st: Store, c: nat, tag: MacroTag, es: seq<Value>): Outcome<Evaluated>
    decreases fuel, SizeSeq(es), 1
  {
    match tag
    case DefMacro =>
      // coreDef (core.go:221-232): binds in the root Context.
      if |es| > 2 && es[1].Literal? then
        SizeSeqElem(es, 2);
        var r :- Eval(fuel, st, c, es[2]);
        Done(Evaluated(SetVar(r.st, 0, es[1].name, r.v), r.v))
      else Done(Evaluated(st, Nil))
    case FnMacro =>
      // coreFn (core.go:299-318): the parameter list must be an Expression.
      if |es| < 3 then Done(Evaluated(st, Nil))
      else if !es[1].Expression? then Panic(FailedTypeAssertion)
      else if exists i :: 0 <= i < |es[1].elems| && !es[1].elems[i].Literal? then Done(Evaluated(st, Nil))
      else
        var f := Closure(st.fnCount, Names(es[1].elems), es[2], c);
        Done(Evaluated(st.(fnCount := st.fnCount + 1), Function(f)))
    case IfMacro =>
      // ifMacro (core.go:320-340)
      if |es| < 3 then Done(Evaluated(st, Nil))
      else
        SizeSeqElem(es, 1);
        SizeSeqElem(es, 2);
        var cond :- Eval(fuel, st, c, es[1]);
        if !cond.v.Nil? && Truthy(cond.v) then Eval(fuel, cond.st, c, es[2])
        else if |es| == 4 && !es[3].Nil? then
          SizeSeqElem(es, 3);
          Eval(fuel, cond.st, c, es[3])
        else Done(Evaluated(cond.st, Nil))
    case DoMacro =>
      // doMacro (core.go:406-416)
      if |es| < 2 then Done(Evaluated(st, Nil))
      else
        SizeSeqElem(es, 0);
        var rs :- EvalSeq(fuel, st, c, es[1..], false);
        Done(Evaluated(rs.st, rs.vs[|rs.vs| - 1]))
    case TimeMacro =>
      // coreTime (core.go:418-427), without the clock and the output.
      if |es| != 2 then Done(Evaluated(st, Nil))
      else
        SizeSeqElem(es, 1);
        Eval(fuel, st, c, es[1])
  }
}
