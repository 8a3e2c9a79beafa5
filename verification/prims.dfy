/**
 * The native functions of core.go (`coreF`): each takes the evaluated
 * arguments and returns a value, or raises a Go runtime panic.
 *
 * Each native is specified by a function; the three natives that work
 * by accumulating in a loop (`+`, `-` and `range`) also have a method
 * that runs the loop and is proved to agree with its function.
 * `log.Error` calls are no-ops, but their arguments are still evaluated,
 * and `v.Type()` on a nil argument panics there.
 */
module Prims {
  import opened Values

  // ---------------------------------------------------------------------
  // Arithmetic on Go's 64-bit int

  /** Two values that differ by a multiple of 2^64 wrap to the same int. */
  lemma WrapCongruent(x: int, y: int)
    requires (x - y) % TwoTo64 == 0
    ensures Wrap(x) == Wrap(y)
  {
    var k := (x - y) / TwoTo64;
    assert x - MinInt64 == (y - MinInt64) + k * TwoTo64;
    ModAddMultiple(y - MinInt64, k);
  }

  lemma ModAddMultiple(a: int, k: int)
    ensures (a + k * TwoTo64) % TwoTo64 == a % TwoTo64
  {
  }

  /** Wrapping after every step is wrapping once at the end. */
  lemma WrapStep(a: int, b: int)
    ensures Wrap(Wrap(a) + b) == Wrap(a + b)
    ensures Wrap(Wrap(a) - b) == Wrap(a - b)
  {
    WrapCongruent(Wrap(a) + b, a + b);
    WrapCongruent(Wrap(a) - b, a - b);
  }

  /** What `arg.(Number)` yields with its ok flag ignored: the number, or
      the zero Number. */
  function NumberOr0(v: Value): int
  {
    if v.Number? then v.n else 0
  }

  /** The exact sum of the Number arguments; other arguments are skipped. */
  function Sum(args: seq<Value>): int
  {
    if args == [] then 0 else Sum(args[..|args| - 1]) + NumberOr0(args[|args| - 1])
  }

  /** One more argument adds its number. */
  lemma SumSnoc(xs: seq<Value>, x: Value)
    ensures Sum(xs + [x]) == Sum(xs) + NumberOr0(x)
  {
    assert (xs + [x])[..|xs|] == xs;
  }

  lemma {:induction false} SumAppend(a: seq<Value>, b: seq<Value>)
    ensures Sum(a + b) == Sum(a) + Sum(b)
    decreases |b|
  {
    if b == [] {
      assert a + b == a;
    } else {
      var b' := b[..|b| - 1];
      assert a + b == (a + b') + [b[|b| - 1]];
      assert b == b' + [b[|b| - 1]];
      SumAppend(a, b');
      SumSnoc(a + b', b[|b| - 1]);
      SumSnoc(b', b[|b| - 1]);
    }
  }

  /** `+` (core.go:192-202): the wrapped sum of its Number arguments. */
  function Plus(args: seq<Value>): Value
  {
    Number(Wrap(Sum(args)))
  }

  /** `-` (core.go:204-219): the first argument, or 0 when it is not a
      Number, minus the later Number arguments, wrapped; 0 with no
      arguments. */
  function Minus(args: seq<Value>): Value
  {
    if args == [] then Number(0)
    else Number(Wrap(NumberOr0(args[0]) - Sum(args[1..])))
  }

  /** coreAdd's loop, with the wrap-around of every `+=`. */
  method Add(args: seq<Value>) returns (r: Value)
    ensures r == Plus(args)
  {
    var res: Int64 := 0;
    var i := 0;
    while i < |args|
      invariant 0 <= i <= |args|
      invariant res == Wrap(Sum(args[..i]))
    {
      var arg := args[i];
      assert args[..i + 1] == args[..i] + [arg];
      SumSnoc(args[..i], arg);
      WrapStep(Sum(args[..i]), NumberOr0(arg));
      if arg.Number? {
        res := Wrap(res + arg.n);
      }
      i := i + 1;
    }
    assert args[..i] == args;
    return Number(res);
  }

  /** coreSub's loop, with the wrap-around of every `-=`. */
  method Sub(args: seq<Value>) returns (r: Value)
    ensures r == Minus(args)
  {
    if |args| < 1 {
      return Number(0);
    }
    var res: Int64 := NumberOr0(args[0]);
    var i := 1;
    while i < |args|
      invariant 1 <= i <= |args|
      invariant res == Wrap(NumberOr0(args[0]) - Sum(args[1..i]))
    {
      var arg := args[i];
      assert args[1..i + 1] == args[1..i] + [arg];
      SumSnoc(args[1..i], arg);
      WrapStep(NumberOr0(args[0]) - Sum(args[1..i]), NumberOr0(arg));
      if arg.Number? {
        res := Wrap(res - arg.n);
      }
      i := i + 1;
    }
    assert args[1..i] == args[1..];
    return Number(res);
  }

  /** Adding numbers that stay in range gives their exact sum, and
      arguments that are not Numbers change nothing. */
  lemma PlusExact(args: seq<Value>, extra: Value)
    requires MinInt64 <= Sum(args) <= MaxInt64
    requires !extra.Number?
    ensures Plus(args) == Number(Sum(args))
    ensures Plus(args + [extra]) == Plus(args) && Plus([extra] + args) == Plus(args)
  {
    SumSnoc(args, extra);
    SumAppend([extra], args);
    SumSnoc([], extra);
    assert [] + [extra] == [extra];
  }

  /** `-` undoes `+`: (- (+ a b) b) is a, wrap-around included. */
  lemma MinusUndoesPlus(a: Int64, b: Int64)
    ensures Minus([Plus([Number(a), Number(b)]), Number(b)]) == Number(a)
  {
    var s := [Number(a), Number(b)];
    SumSnoc([], Number(a));
    SumSnoc([Number(a)], Number(b));
    assert [Number(a)] + [Number(b)] == s;
    var t := [Plus(s), Number(b)];
    SumSnoc([], Number(b));
    assert t[1..] == [] + [Number(b)];
    WrapStep(a + b, b);
  }

  /** `-` with one Number argument returns it; with a leading non-Number,
      that argument counts as 0. */
  lemma MinusLeading(v: Value, rest: seq<Value>)
    ensures Minus([v]) == Number(NumberOr0(v))
    ensures !v.Number? ==> Minus([v] + rest) == Minus([Number(0)] + rest)
  {
    assert [v][1..] == [];
    assert ([v] + rest)[1..] == rest;
    assert ([Number(0)] + rest)[1..] == rest;
  }

  // ---------------------------------------------------------------------
  // Comparison and logic

  /** `a == b` on two values of TypeFunction or TypeMacros: natives and
      macros are Go func values, which cannot be compared (a panic); two
      closures are the same pointer or not; a native and a closure have
      different dynamic types and are unequal. */
  function SameCallable(a: Value, b: Value): Outcome<Value>
    requires (a.Function? && b.Function?) || (a.Macro? && b.Macro?)
  {
    if a.Macro? then Panic(UncomparableType)
    else if a.fn.Native? && b.fn.Native? then Panic(UncomparableType)
    else if a.fn.Closure? && b.fn.Closure? then Done(Boolean(a.fn.id == b.fn.id))
    else Done(Boolean(false))
  }

  /** `eq` (core.go:234-269). */
  function Eq(args: seq<Value>): Outcome<Value>
  {
    if |args| < 1 then Done(Boolean(true))
    else if |args| > 2 then Done(Boolean(false))
    else if |args| == 1 then Panic(IndexOutOfRange)
    else
      var a, b := args[0], args[1];
      if a.Nil? || b.Nil? then Panic(NilDereference)
      else if TypeOf(a) != TypeOf(b) then Done(Boolean(false))
      else match a
        case Number(x) => Done(Boolean(x == b.n))
        case Boolean(x) => Done(Boolean(x == b.b))
        case Function(_) => SameCallable(a, b)
        case Macro(_) => SameCallable(a, b)
        case _ => Done(Boolean(false))
  }

  /** Two values are `eq` exactly when they are the same Number, the same
      Boolean, or the same closure; Literals, Lists and Expressions never
      are, not even to themselves. */
  lemma EqTrue(a: Value, b: Value)
    ensures Eq([a, b]) == Done(Boolean(true)) <==>
      (a.Number? && a == b) || (a.Boolean? && a == b) ||
      (a.Function? && b.Function? && a.fn.Closure? && b.fn.Closure? && a.fn.id == b.fn.id)
  {
  }

  /** `eq` panics on a nil argument, on a single argument, and on two
      natives or two macros; nothing else makes it panic. */
  lemma EqPanics(args: seq<Value>)
    ensures Eq(args).Panic? <==>
      |args| == 1 ||
      (|args| == 2 && (args[0].Nil? || args[1].Nil? ||
        (args[0].Macro? && args[1].Macro?) ||
        (args[0].Function? && args[1].Function? && args[0].fn.Native? && args[1].fn.Native?)))
  {
  }

  /** `eq` does not depend on the order of its two arguments. */
  lemma EqSymmetric(a: Value, b: Value)
    ensures Eq([a, b]) == Eq([b, a])
  {
  }

  /** `not` (core.go:271-284): only the first argument is looked at. */
  function Not(args: seq<Value>): Outcome<Value>
  {
    if |args| < 1 then Done(Boolean(true))
    else if |args| > 2 then Done(Boolean(false))
    else if args[0].Nil? then Panic(NilDereference)
    else Done(Boolean(!Truthy(args[0])))
  }

  /** `not` twice turns any value into the Boolean of its truthiness. */
  lemma NotNot(v: Value)
    requires !v.Nil?
    ensures Not([v]).Done? && Not([Not([v]).val]) == Done(Boolean(Truthy(v)))
  {
  }

  // ---------------------------------------------------------------------
  // Lists

  /** `head` (core.go:342-356): the first element of a List argument. */
  function Head(args: seq<Value>): Outcome<Value>
  {
    if |args| != 1 then Done(Nil)
    else if args[0].Nil? then Panic(NilDereference)
    else if !args[0].List? then Done(Nil)
    else if args[0].items == [] then Done(Nil)
    else Done(args[0].items[0])
  }

  /** `tail` (core.go:358-372): a List argument without its first element. */
  function Tail(args: seq<Value>): Outcome<Value>
  {
    if |args| != 1 then Done(Nil)
    else if args[0].Nil? then Panic(NilDereference)
    else if !args[0].List? then Done(Nil)
    else if args[0].items == [] then Done(List([]))
    else Done(List(args[0].items[1..]))
  }

  /** `cons` (core.go:433-452): `l.Add(v)`, a List with `v` in front. */
  function Cons(args: seq<Value>): Outcome<Value>
  {
    if |args| != 2 then Done(Nil)
    else if args[1].Nil? || !args[1].List? then Done(Nil)
    else Done(List([args[0]] + args[1].items))
  }

  /** `conj` (core.go:374-404): with two Lists, `l2.Conj(l1)`, that is the
      second list's elements followed by the first's; a nil argument next
      to a List yields a copy of that List. */
  function Conj(args: seq<Value>): Outcome<Value>
  {
    if |args| != 2 then Done(Nil)
    else
      var l1, l2 := args[0], args[1];
      if l1.Nil? && l2.Nil? then Done(Nil)
      else if l1.Nil? then (if l2.List? then Done(l2) else Panic(NilDereference))
      else if l2.Nil? then (if l1.List? then Done(l1) else Panic(NilDereference))
      else if l1.List? && l2.List? then Done(List(l2.items + l1.items))
      else Done(Nil)
  }

  /** `cons` and `head`/`tail` are inverse: consing onto a list and taking
      head and tail gives back the element and the list. */
  lemma HeadTailCons(v: Value, xs: seq<Value>)
    ensures Cons([v, List(xs)]) == Done(List([v] + xs))
    ensures Head([List([v] + xs)]) == Done(v)
    ensures Tail([List([v] + xs)]) == Done(List(xs))
  {
    assert ([v] + xs)[1..] == xs;
  }

  /** A non-empty list is its head consed onto its tail. */
  lemma ConsHeadTail(xs: seq<Value>)
    requires xs != []
    ensures Head([List(xs)]).Done? && Tail([List(xs)]).Done?
    ensures Cons([Head([List(xs)]).val, Tail([List(xs)]).val]) == Done(List(xs))
  {
    assert [xs[0]] + xs[1..] == xs;
  }

  /** Joining is associative and has the empty list as unit. */
  lemma ConjAssociative(a: seq<Value>, b: seq<Value>, c: seq<Value>)
    ensures Conj([List(a), List([])]) == Done(List(a))
    ensures Conj([List([]), List(a)]) == Done(List(a))
    ensures Conj([List(b + a), List(c)]) == Done(List(c + b + a))
    ensures Conj([List(a), List(c + b)]) == Done(List(c + b + a))
  {
    assert a + [] == a && [] + a == a;
    assert c + (b + a) == c + b + a;
  }

  // ---------------------------------------------------------------------
  // range and odd?

  /** The List `0 .. k-1`. */
  function Naturals(k: nat): (r: seq<Value>)
    requires k <= MaxInt64 + 1
    ensures |r| == k
  {
    seq(k, i requires 0 <= i < k => Number(i))
  }

  /** How many times coreRange's loop runs: it counts down from `n - 1`,
      where the subtraction wraps. */
  function RangeLength(n: Int64): nat
  {
    var top := Wrap(n - 1);
    if top < 0 then 0 else top + 1
  }

  /** `range` (core.go:454-472). */
  function Range(args: seq<Value>): Outcome<Value>
  {
    if |args| != 1 then Done(Nil)
    else if args[0].Nil? then Panic(NilDereference)
    else if !args[0].Number? then Done(Nil)
    else Done(List(Naturals(RangeLength(args[0].n))))
  }

  /** coreRange (core.go:454-472), with its loop: it prepends `i` for `i`
      from `n - 1` down to 0. */
  method RangeOf(args: seq<Value>) returns (r: Outcome<Value>)
    ensures r == Range(args)
  {
    if |args| != 1 {
      return Done(Nil);
    }
    if args[0].Nil? {
      return Panic(NilDereference);
    }
    if !args[0].Number? {
      return Done(Nil);
    }
    var n := args[0].n;
    ghost var all := Naturals(RangeLength(n));
    var items := [];
    var i: Int64 := Wrap(n as int - 1);
    while i >= 0
      invariant i < RangeLength(n)
      invariant items == all[if i < 0 then 0 else i + 1..]
      decreases i
    {
      assert all[i..] == [Number(i)] + all[i + 1..];
      items := [Number(i)] + items;
      i := i - 1;
    }
    return Done(List(items));
  }

  /** `range n` lists 0 to n-1, and is empty when n is not positive, except
      for the least int: there `n - 1` wraps to the greatest int, and the
      list has 2^63 elements. */
  lemma RangeContents(n: Int64)
    ensures Range([Number(n)]).Done? && Range([Number(n)]).val.List?
    ensures var xs := Range([Number(n)]).val.items;
      (n > 0 ==> |xs| == n && forall i :: 0 <= i < n ==> xs[i] == Number(i)) &&
      (MinInt64 < n <= 0 ==> xs == []) &&
      (n == MinInt64 ==> |xs| == MaxInt64 + 1)
  {
  }

  /** Go's `%`, which truncates toward zero: the remainder takes the sign
      of the dividend. */
  function GoRem(a: int, b: int): (r: int)
    requires b != 0
    ensures (a >= 0 ==> 0 <= r < if b > 0 then b else -b) && (a < 0 ==> r <= 0)
  {
    var m := if b > 0 then b else -b;
    if a >= 0 then a % m else -((-a) % m)
  }

  /** `odd?` (core.go:474-486). */
  function Odd(args: seq<Value>): Outcome<Value>
  {
    if |args| != 1 then Done(Nil)
    else if args[0].Nil? then Panic(NilDereference)
    else if !args[0].Number? then Done(Nil)
    else Done(Boolean(GoRem(args[0].n, 2) != 0))
  }

  /** `odd?` holds of exactly the odd numbers, negative ones included, and
      flips from each number to the next, wrap-around included. */
  lemma OddParity(n: Int64)
    ensures Odd([Number(n)]) == Done(Boolean(n % 2 == 1))
    ensures Odd([Number(Wrap(n + 1))]) == Done(Boolean(n % 2 == 0))
  {
    if n == MaxInt64 {
      assert Wrap(n + 1) == MinInt64;
    }
  }

  // ---------------------------------------------------------------------
  // Dispatch

  /** `cf(args)` for each native registered in core.go:169-190; `println`
      (core.go:286-297) writes its arguments and returns nil, and `recur`
      (core.go:429-431) wraps its arguments. */
  function Native(p: Prim, args: seq<Value>): Outcome<Value>
  {
    match p
    case AddFn => Done(Plus(args))
    case SubFn => Done(Minus(args))
    case PrintlnFn => Done(Nil)
    case NotFn => Not(args)
    case EqFn => Eq(args)
    case HeadFn => Head(args)
    case TailFn => Tail(args)
    case ConjFn => Conj(args)
    case ConsFn => Cons(args)
    case RecurFn => Done(Recur(args))
    case RangeFn => Range(args)
    case OddFn => Odd(args)
  }
}
