/**
 * The value model of parser.go and core.go: the closed set of variants an
 * s-expression can take, Go's 64-bit `int`, and truthiness.
 *
 * Go's `Sexpr` is an interface, so a value may also be the nil interface;
 * that is the extra constructor `Nil`. Go runtime panics are `Panic`
 * outcomes, and a run that exhausts its fuel is `OutOfFuel`.
 */
module Values {

  const MinInt64: int := -0x8000_0000_0000_0000
  const MaxInt64: int := 0x7FFF_FFFF_FFFF_FFFF
  const TwoTo64: int := 0x1_0000_0000_0000_0000

  /** Go's `int` on a 64-bit platform. */
  type Int64 = x: int | MinInt64 <= x <= MaxInt64

  /** Two's-complement wrap-around of a 64-bit `int`. */
  function Wrap(x: int): (r: Int64)
    ensures MinInt64 <= x <= MaxInt64 ==> r == x
    ensures (r - x) % TwoTo64 == 0
  {
    (x - MinInt64) % TwoTo64 + MinInt64
  }

  /** The native functions (`coreF`) registered by core.go's init. */
  datatype Prim =
    | AddFn | SubFn | PrintlnFn | NotFn | EqFn | HeadFn | TailFn
    | ConjFn | ConsFn | RecurFn | RangeFn | OddFn

  /** The native macros (`macros`) registered by core.go's init. */
  datatype MacroTag = DefMacro | FnMacro | IfMacro | DoMacro | TimeMacro

  /** Both kinds of value of type TypeFunction: a native `coreF`, or a
      pointer to a user `function` (closure). `id` is the pointer's
      identity; `ctx` is the captured Context (an index into the heap of
      contexts, see module Env). The function's name is used only in
      diagnostics and rendering, and is left out. */
  datatype Callable =
    | Native(prim: Prim)
    | Closure(id: nat, params: seq<string>, body: Value, ctx: nat)

  datatype Value =
    | Nil
    | Literal(name: string)
    | Number(n: Int64)
    | Boolean(b: bool)
    | Expression(elems: seq<Value>)
    | List(items: seq<Value>)
    | Function(fn: Callable)
    | Macro(tag: MacroTag)
    | Recur(args: seq<Value>)

  /** The type tags of parser.go:11-20. */
  datatype CoreType =
    | TypeLiteral | TypeNumber | TypeBoolean | TypeExpression
    | TypeFunction | TypeMacros | TypeList | TypeRecur

  /** `Type()` of each variant (parser.go:34-36, 66-68, 123-125, 149-151,
      176-178; list.go:120-122; core.go:100-102, 126-128, 151-153). Native
      functions and closures share TypeFunction. */
  function TypeOf(v: Value): (t: CoreType)
    requires !v.Nil?
    ensures t == TypeFunction <==> v.Function?
    ensures t == TypeMacros <==> v.Macro?
  {
    match v
    case Literal(_) => TypeLiteral
    case Number(_) => TypeNumber
    case Boolean(_) => TypeBoolean
    case Expression(_) => TypeExpression
    case Function(_) => TypeFunction
    case Macro(_) => TypeMacros
    case List(_) => TypeList
    case Recur(_) => TypeRecur
  }

  /** The Go runtime errors the core can raise. */
  datatype Fault =
    | NilDereference       // a method called on a nil Sexpr
    | IndexOutOfRange      // `args[1]` of a one-element slice
    | FailedTypeAssertion  // `argp.(*Expression)` on another variant
    | UncomparableType     // `==` on two func values

  datatype Outcome<T> = Done(val: T) | Panic(fault: Fault) | OutOfFuel {
    predicate IsFailure() {
      !Done?
    }
    function PropagateFailure<U>(): Outcome<U>
      requires !Done?
    {
      if Panic? then Panic(fault) else OutOfFuel
    }
    function Extract(): T
      requires Done?
    {
      val
    }
  }

  /** `Bool()` of each variant (parser.go:38-43, 70-75, 115-117, 141-143,
      165-167; list.go:161-166; core.go:112-114, 118-120, 144-146). A nil
      Sexpr has no `Bool`; every caller checks for nil first. */
  function Truthy(v: Value): bool
    requires !v.Nil?
  {
    match v
    case Literal(_) => false
    case Number(n) => n != 0
    case Boolean(b) => b
    case Expression(es) => |es| > 0
    case List(xs) => |xs| > 0
    case Function(_) => true
    case Macro(_) => true
    case Recur(args) => |args| > 0
  }

  /** A measure on values for termination: evaluation descends into
      `Expression` and `List` elements only. */
  function Size(v: Value): (n: nat)
    ensures n >= 1
  {
    match v
    case Expression(es) => 1 + SizeSeq(es)
    case List(xs) => 1 + SizeSeq(xs)
    case _ => 1
  }

  function SizeSeq(xs: seq<Value>): (n: nat)
    ensures n >= |xs|
  {
    if xs == [] then 0 else Size(xs[0]) + SizeSeq(xs[1..])
  }

  /** Every element is no larger than the sequence it belongs to. */
  lemma {:induction false} SizeSeqElem(xs: seq<Value>, i: nat)
    requires i < |xs|
    ensures Size(xs[i]) <= SizeSeq(xs)
    ensures SizeSeq(xs[i + 1..]) < SizeSeq(xs)
  {
    if i > 0 {
      SizeSeqElem(xs[1..], i - 1);
      assert xs[1..][i - 1] == xs[i];
      assert xs[1..][i..] == xs[i + 1..];
    }
  }
}
