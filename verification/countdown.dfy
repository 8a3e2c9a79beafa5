/**
 * The tail-recursive countdown `(fn (n) (if (eq n 0) 0 (recur (- n 1))))`:
 * applied to any non-negative `k` it returns 0, after `k + 1` runs of its
 * body in one Context, which is what function.Call's loop is for.
 */
module Countdown {
  import opened Wrappers
  import opened Values
  import opened Env
  import opened Semantics
  import Prims

  const N := Literal("n")
  const Test := Expression([Literal("eq"), N, Number(0)])
  const Decrement := Expression([Literal("-"), N, Number(1)])
  const Again := Expression([Literal("recur"), Decrement])
  const Body := Expression([Literal("if"), Test, Number(0), Again])
  const Lambda := Expression([Literal("fn"), Expression([N]), Body])

  /** `((fn (n) ...) k)` as a top-level form. */
  function Program(k: Int64): Value
  {
    Expression([Lambda, Number(k)])
  }

  /** The natives the body uses are visible from `c`. */
  predicate Natives(st: Store, c: nat)
  {
    Lookup(st, c, "if") == Some(Macro(IfMacro)) &&
    Lookup(st, c, "eq") == Some(Function(Native(EqFn))) &&
    Lookup(st, c, "-") == Some(Function(Native(SubFn))) &&
    Lookup(st, c, "recur") == Some(Function(Native(RecurFn)))
  }

  /** ... and `n` is `k`. */
  predicate Sees(st: Store, c: nat, k: Int64)
  {
    Natives(st, c) && Lookup(st, c, "n") == Some(Number(k))
  }

  /** Two arguments that evaluate to themselves or are looked up. */
  lemma PairArgs(fuel: nat, st: Store, c: nat, k: Int64, m: Int64)
    requires Lookup(st, c, "n") == Some(Number(k))
    ensures EvalSeq(fuel, st, c, [N, Number(m)], false) == Done(EvaluatedAll(st, [Number(k), Number(m)]))
  {
    var es := [N, Number(m)];
    assert es[0] == N && es[1..] == [Number(m)];
    assert [Number(m)][0] == Number(m) && [Number(m)][1..] == [];
    assert Eval(fuel, st, c, N) == Done(Evaluated(st, Number(k)));
    assert Eval(fuel, st, c, Number(m)) == Done(Evaluated(st, Number(m)));
    assert EvalSeq(fuel, st, c, [], false) == Done(EvaluatedAll(st, []));
    assert [Number(m)] + [] == [Number(m)] && [Number(k)] + [Number(m)] == [Number(k), Number(m)];
    assert EvalSeq(fuel, st, c, [Number(m)], false) == Done(EvaluatedAll(st, [Number(m)]));
  }

  /** `(eq n 0)` is whether `k` is 0, and changes nothing. */
  lemma TestValue(fuel: nat, st: Store, c: nat, k: Int64)
    requires Sees(st, c, k)
    ensures Eval(fuel, st, c, Test) == Done(Evaluated(st, Boolean(k == 0)))
  {
    PairArgs(fuel, st, c, k, 0);
    var es := Test.elems;
    assert es[0] == Literal("eq") && es[1..] == [N, Number(0)];
    assert Eval(fuel, st, c, es[0]) == Done(Evaluated(st, Function(Native(EqFn))));
    assert Prims.Eq([Number(k), Number(0)]) == Done(Boolean(k == 0));
    assert Apply(fuel, st, Native(EqFn), [Number(k), Number(0)]) == Done(Evaluated(st, Boolean(k == 0)));
    assert EvalForm(fuel, st, c, es) == Done(Evaluated(st, Boolean(k == 0)));
  }

  /** `(- n 1)` is `k - 1`, wrapped. */
  lemma DecrementValue(fuel: nat, st: Store, c: nat, k: Int64)
    requires Sees(st, c, k)
    ensures Eval(fuel, st, c, Decrement) == Done(Evaluated(st, Number(Wrap(k - 1))))
  {
    PairArgs(fuel, st, c, k, 1);
    var es := Decrement.elems;
    assert es[0] == Literal("-") && es[1..] == [N, Number(1)];
    assert Eval(fuel, st, c, es[0]) == Done(Evaluated(st, Function(Native(SubFn))));
    var args := [Number(k), Number(1)];
    assert args[..1] == [Number(k)];
    assert Prims.Sum(args[..1]) == k by {
      assert args[..1][..0] == [];
    }
    assert Prims.Minus(args) == Number(Wrap(k - 1));
    assert Apply(fuel, st, Native(SubFn), args) == Done(Evaluated(st, Number(Wrap(k - 1))));
    assert EvalForm(fuel, st, c, es) == Done(Evaluated(st, Number(Wrap(k - 1))));
  }

  /** `(recur (- n 1))` is the Recur sentinel carrying `k - 1`. */
  lemma AgainValue(fuel: nat, st: Store, c: nat, k: Int64)
    requires Sees(st, c, k)
    ensures Eval(fuel, st, c, Again) == Done(Evaluated(st, Recur([Number(Wrap(k - 1))])))
  {
    DecrementValue(fuel, st, c, k);
    var es := Again.elems;
    var v := Number(Wrap(k - 1));
    assert es[0] == Literal("recur") && es[1..] == [Decrement] && es[1..][1..] == [];
    assert [v] + [] == [v];
    assert Eval(fuel, st, c, es[0]) == Done(Evaluated(st, Function(Native(RecurFn))));
    assert EvalSeq(fuel, st, c, es[1..], false) == Done(EvaluatedAll(st, [v]));
    assert Apply(fuel, st, Native(RecurFn), [v]) == Done(Evaluated(st, Recur([v])));
    assert EvalForm(fuel, st, c, es) == Done(Evaluated(st, Recur([v])));
  }

  /** One run of the body: 0 when `k` is 0, otherwise a request to go round
      again with `k - 1`. The store is left as it was. */
  lemma BodyValue(fuel: nat, st: Store, c: nat, k: Int64)
    requires Sees(st, c, k)
    ensures Eval(fuel, st, c, Body) ==
      Done(Evaluated(st, if k == 0 then Number(0) else Recur([Number(Wrap(k - 1))])))
  {
    var es := Body.elems;
    assert es[0] == Literal("if") && es[1] == Test && es[2] == Number(0) && es[3] == Again;
    assert Eval(fuel, st, c, es[0]) == Done(Evaluated(st, Macro(IfMacro)));
    TestValue(fuel, st, c, k);
    assert Truthy(Boolean(k == 0)) == (k == 0);
    if k == 0 {
      assert Eval(fuel, st, c, es[2]) == Done(Evaluated(st, Number(0)));
    } else {
      AgainValue(fuel, st, c, k);
    }
    assert EvalForm(fuel, st, c, es) == ApplyMacro(fuel, st, c, IfMacro, es);
  }

  /** Binding `n` keeps the natives visible and makes `n` the new value. */
  lemma BindN(st: Store, c: nat, m: Int64)
    requires c < |st.frames| && Natives(st, c)
    ensures Sees(BindAll(st, c, ["n"], [Number(m)]), c, m)
    ensures |BindAll(st, c, ["n"], [Number(m)]).frames| == |st.frames|
  {
    assert ["n"][1..] == [] && [Number(m)][1..] == [];
    assert BindAll(st, c, ["n"], [Number(m)]) == SetVar(st, c, "n", Number(m));
    GetAfterSet(st, c, "n", Number(m));
    GetOtherAfterSet(st, c, "n", "if", Number(m));
    GetOtherAfterSet(st, c, "n", "eq", Number(m));
    GetOtherAfterSet(st, c, "n", "-", Number(m));
    GetOtherAfterSet(st, c, "n", "recur", Number(m));
  }

  /** function.Call's loop on the countdown: from any `k >= 0`, `k + 1`
      units of fuel suffice, and the result is 0. */
  lemma {:induction false} CountdownLoop(fuel: nat, st: Store, c: nat, k: Int64)
    requires c < |st.frames| && Natives(st, c)
    requires 0 <= k && k < fuel
    ensures CallLoop(fuel, st, c, ["n"], Body, [Number(k)]).Done?
    ensures CallLoop(fuel, st, c, ["n"], Body, [Number(k)]).val.v == Number(0)
    decreases k
  {
    var st' := BindAll(st, c, ["n"], [Number(k)]);
    BindN(st, c, k);
    BodyValue(fuel - 1, st', c, k);
    if k != 0 {
      assert Wrap(k - 1) == k - 1;
      CountdownLoop(fuel - 1, st', c, k - 1);
    }
  }

  /** A closure with the countdown's parameters and body, applied to `k`,
      returns 0 when its captured Context sees the natives. */
  lemma CountdownCall(fuel: nat, st: Store, f: Callable, k: Int64)
    requires f.Closure? && f.params == ["n"] && f.body == Body
    requires f.ctx < |st.frames| && Natives(st, f.ctx)
    requires 0 <= k && k < fuel
    ensures Apply(fuel, st, f, [Number(k)]).Done?
    ensures Apply(fuel, st, f, [Number(k)]).val.v == Number(0)
  {
    var (st', c) := NewFrame(st, f.ctx);
    NewFrameLookup(st, f.ctx, 0, "if");
    NewFrameLookup(st, f.ctx, 0, "eq");
    NewFrameLookup(st, f.ctx, 0, "-");
    NewFrameLookup(st, f.ctx, 0, "recur");
    CountdownLoop(fuel, st', c, k);
  }

  /** coreContext binds `fn` and the natives the countdown uses. */
  lemma RootSees()
    ensures Lookup(Initial, 0, "fn") == Some(Macro(FnMacro))
    ensures Natives(Initial, 0)
  {
  }

  /** `(fn (n) ...)` in coreContext makes the next closure, over it. */
  lemma LambdaValue(fuel: nat, st: Store)
    requires Lookup(st, 0, "fn") == Some(Macro(FnMacro))
    ensures Eval(fuel, st, 0, Lambda) ==
      Done(Evaluated(st.(fnCount := st.fnCount + 1), Function(Closure(st.fnCount, ["n"], Body, 0))))
  {
    var es := Lambda.elems;
    assert es[0] == Literal("fn") && es[1] == Expression([N]) && es[2] == Body;
    assert Names([N]) == ["n"] by {
      assert [N][1..] == [];
    }
    assert Eval(fuel, st, 0, es[0]) == Done(Evaluated(st, Macro(FnMacro)));
    assert !exists i :: 0 <= i < |es[1].elems| && !es[1].elems[i].Literal?;
    assert EvalForm(fuel, st, 0, es) == ApplyMacro(fuel, st, 0, FnMacro, es);
  }

  /** The whole form, evaluated in coreContext: `fn` builds the closure,
      which is applied to `k` and returns 0. */
  lemma ProgramValue(fuel: nat, st: Store, k: Int64)
    requires 0 < |st.frames| && Natives(st, 0) && Lookup(st, 0, "fn") == Some(Macro(FnMacro))
    requires 0 <= k && k < fuel
    ensures Eval(fuel, st, 0, Program(k)).Done?
    ensures Eval(fuel, st, 0, Program(k)).val.v == Number(0)
  {
    var st1 := st.(fnCount := st.fnCount + 1);
    var f := Closure(st.fnCount, ["n"], Body, 0);
    LambdaValue(fuel, st);
    assert Natives(st1, 0);
    var es := Program(k).elems;
    assert es[0] == Lambda;
    assert es[1..] == [Number(k)] && es[1..][1..] == [] && [Number(k)] + [] == [Number(k)];
    assert EvalSeq(fuel, st1, 0, es[1..], false) == Done(EvaluatedAll(st1, [Number(k)]));
    CountdownCall(fuel, st1, f, k);
    assert EvalForm(fuel, st, 0, es) == Apply(fuel, st1, f, [Number(k)]);
  }

  /** The form at top level in the initial store returns 0. */
  lemma CountdownProgram(fuel: nat, k: Int64)
    requires 0 <= k && k < fuel
    ensures Eval(fuel, Initial, 0, Program(k)).Done?
    ensures Eval(fuel, Initial, 0, Program(k)).val.v == Number(0)
  {
    RootSees();
    ProgramValue(fuel, Initial, k);
  }
}
