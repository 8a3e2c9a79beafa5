/**
 * parser.go: turning the token stream into top-level forms.
 *
 * `Parser.Parse` reads tokens from a `Lexer` and keeps, as the Go code
 * does, the forms read so far, a bracket counter, the container being
 * filled, a stack of enclosing containers and the quote flag. It is proved
 * equal to `ParseTokens`, a left fold of `Step` over the token stream.
 *
 * The containers are values here. In the Go code they are pointers, but
 * the container being filled is never shared with the stack or with a
 * finished form, so updating it in place and rebuilding it are the same.
 */
module Parsing {

  import opened Wrappers
  import opened Values
  import Lexing

  // ---------------------------------------------------------------------
  // Numerals: strconv.Atoi and strconv.Itoa on a 64-bit platform

  predicate IsDigit(c: char) {
    '0' <= c <= '9'
  }

  predicate AllDigits(ds: string) {
    forall k :: 0 <= k < |ds| ==> IsDigit(ds[k])
  }

  function DigitValue(c: char): nat
    requires IsDigit(c)
  {
    c as int - '0' as int
  }

  function DigitChar(d: nat): (c: char)
    requires d < 10
    ensures IsDigit(c) && DigitValue(c) == d
  {
    ('0' as int + d) as char
  }

  /** The value of decimal digits, most significant first. */
  function DecimalValue(ds: string): nat
    requires AllDigits(ds)
  {
    if ds == [] then 0
    else DecimalValue(ds[..|ds| - 1]) * 10 + DigitValue(ds[|ds| - 1])
  }

  /** strconv.Atoi: an optional sign and at least one decimal digit,
      whose value fits in 64 bits; anything else is an error (None). */
  function Atoi(t: string): (r: Option<Int64>)
    ensures r.Some? ==> |t| > 0 && IsDigit(t[|t| - 1])
  {
    var signed := |t| > 0 && (t[0] == '-' || t[0] == '+');
    var digits := if signed then t[1..] else t;
    if |digits| == 0 || !AllDigits(digits) then None
    else
      var v: int := if |t| > 0 && t[0] == '-' then -(DecimalValue(digits) as int) else DecimalValue(digits);
      if MinInt64 <= v <= MaxInt64 then Some(v) else None
  }

  /** The shortest decimal digits of `m`. */
  function DecimalDigits(m: nat): (ds: string)
    ensures |ds| > 0 && AllDigits(ds) && DecimalValue(ds) == m
    ensures |ds| > 1 ==> ds[0] != '0'
  {
    if m < 10 then [DigitChar(m)]
    else
      var ds := DecimalDigits(m / 10) + [DigitChar(m % 10)];
      assert ds[..|ds| - 1] == DecimalDigits(m / 10);
      ds
  }

  /** strconv.Itoa, the rendering of a Number (parser.go:145-147). */
  function Itoa(n: int): string
  {
    if n < 0 then "-" + DecimalDigits(-n) else DecimalDigits(n)
  }

  /** A numeral reads back as its number exactly when that number fits in
      64 bits; in particular every Number reads back from its rendering. */
  lemma AtoiItoa(n: int)
    ensures Atoi(Itoa(n)) == if MinInt64 <= n <= MaxInt64 then Some(n) else None
  {
    var t := Itoa(n);
    if n < 0 {
      assert t[1..] == DecimalDigits(-n);
    } else {
      assert t == DecimalDigits(n);
    }
  }

  /** An empty token, or a sign alone, is not a number. */
  lemma AtoiRejectsSignAlone()
    ensures Atoi("") == None && Atoi("-") == None && Atoi("+") == None
  {
  }

  // ---------------------------------------------------------------------
  // Building containers

  /** The Append method of each variant (parser.go:45-47, 77-80, 127-129,
      153-155, 180-182; list.go:123-128; core.go:104-106, 130-132, 155-157):
      an Expression grows at the end, a List at the front (it prepends), a
      Recur ignores the element, and the rest refuse with an error (None). */
  function AppendTo(c: Value, x: Value): (r: Option<Value>)
    requires !c.Nil?
    ensures r.Some? <==> c.Expression? || c.List? || c.Recur?
    ensures c.Expression? ==> r == Some(Expression(c.elems + [x]))
    ensures c.List? ==> r == Some(List([x] + c.items))
    ensures c.Recur? ==> r == Some(c)
  {
    match c
    case Expression(es) => Some(Expression(es + [x]))
    case List(xs) => Some(List([x] + xs))
    case Recur(_) => Some(c)
    case _ => None
  }

  /** The value of an atom token (parser.go:248-253). */
  function Atom(t: string): (v: Value)
    ensures v.Number? || v == Literal(t)
  {
    match Atoi(t)
    case Some(n) => Number(n)
    case None => Literal(t)
  }

  // ---------------------------------------------------------------------
  // The specification of Parse

  /** The four arms of Parse's switch on a token (parser.go:215-254); an
      atom carries the value it is read as. */
  datatype Tok = Quote | Open | Close | AtomTok(v: Value)

  function Classify(t: string): (k: Tok)
    ensures k.AtomTok? <==> IsAtomToken(t)
  {
    if t == "'" then Quote
    else if t == "(" then Open
    else if t == ")" then Close
    else AtomTok(Atom(t))
  }

  predicate IsAtomToken(t: string) {
    t != "(" && t != ")" && t != "'"
  }

  function ClassifyAll(ts: seq<string>): (ks: seq<Tok>)
    ensures |ks| == |ts|
  {
    if ts == [] then [] else [Classify(ts[0])] + ClassifyAll(ts[1..])
  }

  lemma {:induction false} ClassifyAppend(a: seq<string>, b: seq<string>)
    ensures ClassifyAll(a + b) == ClassifyAll(a) + ClassifyAll(b)
    decreases |a|
  {
    if a == [] {
      assert a + b == b;
    } else {
      calc {
        ClassifyAll(a + b);
        { assert (a + b)[0] == a[0]; assert (a + b)[1..] == a[1..] + b; }
        [Classify(a[0])] + ClassifyAll(a[1..] + b);
        { ClassifyAppend(a[1..], b); }
        [Classify(a[0])] + (ClassifyAll(a[1..]) + ClassifyAll(b));
      }
    }
  }

  /** Parse's local variables: `resp`, `match`, `s`, `stack` and `eval`. */
  datatype ParseState =
    ParseState(resp: seq<Value>, depth: int, cur: Value, stack: seq<Value>, eval: bool)

  const Start := ParseState([], 0, Nil, [], true)

  datatype ParseError = UnmatchedPair | CannotAppend

  /** What Parse returns, or the runtime panic it raises. */
  datatype ParseResult =
    | Parsed(forms: seq<Value>)
    | Failed(err: ParseError)
    | Panicked(fault: Fault)

  datatype StepResult = Continue(st: ParseState) | Halt(res: ParseResult)

  /** One pass of Parse's token loop. An atom outside every bracket is
      appended to a nil container: a nil dereference. */
  function Step(p: ParseState, k: Tok): StepResult
  {
    match k
    case Quote =>
      Continue(p.(eval := false))
    case Open =>
      Continue(ParseState(
        p.resp, p.depth + 1,
        if p.eval then Expression([]) else List([]),
        if p.cur.Nil? then p.stack else p.stack + [p.cur],
        true))
    case Close =>
      if p.depth - 1 < 0 then Halt(Failed(UnmatchedPair))
      else if |p.stack| > 0 then
        var top := p.stack[|p.stack| - 1];
        if top.Nil? then Halt(Panicked(NilDereference))
        else match AppendTo(top, p.cur)
          case None => Halt(Failed(CannotAppend))
          case Some(v) =>
            Continue(ParseState(p.resp, p.depth - 1, v, p.stack[..|p.stack| - 1], p.eval))
      else
        Continue(ParseState(p.resp + [p.cur], p.depth - 1, Nil, p.stack, p.eval))
    case AtomTok(v) =>
      if p.cur.Nil? then Halt(Panicked(NilDereference))
      else match AppendTo(p.cur, v)
        case Some(c) => Continue(p.(cur := c))
        case None => Continue(p)
  }

  /** Parse's loop over a sequence of tokens, stopping at the first error. */
  function Run(p: ParseState, ks: seq<Tok>): StepResult
    decreases |ks|
  {
    if ks == [] then Continue(p)
    else match Step(p, ks[0])
      case Halt(r) => Halt(r)
      case Continue(q) => Run(q, ks[1..])
  }

  /** Parse after the loop: the counter must be back at zero. */
  function Finish(x: StepResult): ParseResult
  {
    match x
    case Halt(r) => r
    case Continue(p) => if p.depth != 0 then Failed(UnmatchedPair) else Parsed(p.resp)
  }

  /** Parse (parser.go:198-260) on a token stream. */
  function ParseTokens(ts: seq<string>): ParseResult
  {
    Finish(Run(Start, ClassifyAll(ts)))
  }

  /** Running over `a + b` is running over `a`, then over `b`. */
  lemma {:induction false} RunAppend(p: ParseState, a: seq<Tok>, b: seq<Tok>)
    ensures Run(p, a + b) == match Run(p, a)
      case Halt(r) => Halt(r)
      case Continue(q) => Run(q, b)
    decreases |a|
  {
    if a == [] {
      assert a + b == b;
    } else {
      assert (a + b)[0] == a[0];
      assert (a + b)[1..] == a[1..] + b;
      match Step(p, a[0])
      case Halt(r) =>
      case Continue(q) => RunAppend(q, a[1..], b);
    }
  }

  /** Parse stops early only with an error. */
  lemma {:induction false} RunHaltsOnError(p: ParseState, ks: seq<Tok>)
    ensures Run(p, ks).Halt? ==> !Run(p, ks).res.Parsed?
    decreases |ks|
  {
    if ks != [] && Step(p, ks[0]).Continue? {
      RunHaltsOnError(Step(p, ks[0]).st, ks[1..]);
    }
  }

  // ---------------------------------------------------------------------
  // Brackets alone decide whether Parse succeeds

  /** How a token sequence brackets, from nesting depth `d`: it closes at
      some depth, or closes a bracket that was never opened, or places an
      atom outside every bracket. */
  datatype Bracketing = Closed(depth: nat) | Unmatched | Stray

  function Bracket(d: nat, ks: seq<Tok>): Bracketing
    decreases |ks|
  {
    if ks == [] then Closed(d)
    else match ks[0]
      case Open => Bracket(d + 1, ks[1..])
      case Close => if d == 0 then Unmatched else Bracket(d - 1, ks[1..])
      case Quote => Bracket(d, ks[1..])
      case AtomTok(_) => if d == 0 then Stray else Bracket(d, ks[1..])
  }

  predicate IsContainer(v: Value) {
    v.Expression? || v.List?
  }

  /** The states Parse passes through: the counter is the number of open
      containers, and only containers are open. */
  predicate WellFormed(p: ParseState) {
    p.depth == |p.stack| + (if p.cur.Nil? then 0 else 1) &&
    (p.cur.Nil? ==> p.stack == []) &&
    (!p.cur.Nil? ==> IsContainer(p.cur)) &&
    forall i :: 0 <= i < |p.stack| ==> IsContainer(p.stack[i])
  }

  /** Each step keeps the state well formed, and fails exactly where the
      brackets say. */
  lemma StepBracket(p: ParseState, k: Tok)
    requires WellFormed(p)
    ensures match Bracket(p.depth, [k])
      case Closed(d) => Step(p, k).Continue? && WellFormed(Step(p, k).st) && Step(p, k).st.depth == d
      case Unmatched => Step(p, k) == Halt(Failed(UnmatchedPair))
      case Stray => Step(p, k) == Halt(Panicked(NilDereference))
  {
    assert [k][1..] == [];
    match k
    case Quote =>
      assert Bracket(p.depth, [k]) == Closed(p.depth);
    case Open =>
      assert Bracket(p.depth, [k]) == Closed(p.depth + 1);
      var q := Step(p, k).st;
      assert forall i :: 0 <= i < |p.stack| ==> q.stack[i] == p.stack[i];
    case Close =>
      if p.depth == 0 {
        assert Bracket(p.depth, [k]) == Unmatched;
      } else {
        assert Bracket(p.depth, [k]) == Closed(p.depth - 1);
        if |p.stack| > 0 {
          var q := Step(p, k).st;
          assert forall i :: 0 <= i < |q.stack| ==> q.stack[i] == p.stack[i];
        }
      }
    case AtomTok(_) =>
      if p.depth == 0 {
        assert Bracket(p.depth, [k]) == Stray;
      } else {
        assert Bracket(p.depth, [k]) == Closed(p.depth);
      }
  }

  lemma {:induction false} RunBracket(p: ParseState, ks: seq<Tok>)
    requires WellFormed(p)
    ensures match Bracket(p.depth, ks)
      case Closed(d) => Run(p, ks).Continue? && WellFormed(Run(p, ks).st) && Run(p, ks).st.depth == d
      case Unmatched => Run(p, ks) == Halt(Failed(UnmatchedPair))
      case Stray => Run(p, ks) == Halt(Panicked(NilDereference))
    decreases |ks|
  {
    if ks != [] {
      StepBracket(p, ks[0]);
      assert [ks[0]][1..] == [];
      if Step(p, ks[0]).Continue? {
        RunBracket(Step(p, ks[0]).st, ks[1..]);
      }
    }
  }

  /** Parse succeeds exactly when every bracket is matched and every atom
      is inside one; an atom outside brackets panics; every other failure
      is "unmatched pair", and "cannot append" never happens. */
  lemma ParseByBrackets(ts: seq<string>)
    ensures var b := Bracket(0, ClassifyAll(ts));
      (ParseTokens(ts).Parsed? <==> b == Closed(0)) &&
      (ParseTokens(ts) == Panicked(NilDereference) <==> b == Stray) &&
      (ParseTokens(ts) == Failed(UnmatchedPair) <==> b == Unmatched || (b.Closed? && b.depth != 0)) &&
      ParseTokens(ts) != Failed(CannotAppend)
  {
    RunBracket(Start, ClassifyAll(ts));
  }

  // ---------------------------------------------------------------------
  // What Parse builds

  /** The forms found so far are only ever extended. */
  function Prefixed(r: seq<Value>, x: StepResult): StepResult
  {
    match x
    case Halt(e) => Halt(e)
    case Continue(q) => Continue(q.(resp := r + q.resp))
  }

  lemma {:induction false} RunPrefixed(r: seq<Value>, p: ParseState, ks: seq<Tok>)
    ensures Run(p.(resp := r + p.resp), ks) == Prefixed(r, Run(p, ks))
    decreases |ks|
  {
    if ks != [] {
      var p' := p.(resp := r + p.resp);
      var k := ks[0];
      if k.Close? && p.depth - 1 >= 0 && |p.stack| == 0 {
        assert Step(p', k).st.resp == r + Step(p, k).st.resp;
      }
      assert Step(p', k) == Prefixed(r, Step(p, k));
      if Step(p, k).Continue? {
        RunPrefixed(r, Step(p, k).st, ks[1..]);
      }
    }
  }

  /** Forms come back in source order: parsing a program that ends
      between forms, then more text, yields the first program's forms
      followed by the rest's. */
  lemma ParseConcat(a: seq<string>, b: seq<string>, ra: seq<Value>)
    requires Run(Start, ClassifyAll(a)) == Continue(ParseState(ra, 0, Nil, [], true))
    ensures ParseTokens(a + b) == match ParseTokens(b)
      case Parsed(rb) => Parsed(ra + rb)
      case other => other
  {
    ClassifyAppend(a, b);
    var kb := ClassifyAll(b);
    RunAppend(Start, ClassifyAll(a), kb);
    RunPrefixed(ra, Start, kb);
    RunHaltsOnError(Start, kb);
    assert Start.(resp := ra + Start.resp) == ParseState(ra, 0, Nil, [], true);
    assert Run(Start, ClassifyAll(a + b)) == Prefixed(ra, Run(Start, kb));
    match Run(Start, kb)
    case Halt(e) =>
    case Continue(q) =>
      assert q.resp == Start.resp + q.resp;
  }

  /** The values of atom tokens, in order. */
  function Atoms(ts: seq<string>): seq<Value>
  {
    if ts == [] then [] else [Atom(ts[0])] + Atoms(ts[1..])
  }

  function AtomToks(vs: seq<Value>): seq<Tok>
  {
    if vs == [] then [] else [AtomTok(vs[0])] + AtomToks(vs[1..])
  }

  lemma {:induction false} ClassifyAtoms(ts: seq<string>)
    requires forall i :: 0 <= i < |ts| ==> IsAtomToken(ts[i])
    ensures ClassifyAll(ts) == AtomToks(Atoms(ts))
    decreases |ts|
  {
    if ts != [] {
      ClassifyAtoms(ts[1..]);
    }
  }

  function Reversed<T>(s: seq<T>): seq<T>
  {
    if s == [] then [] else Reversed(s[1..]) + [s[0]]
  }

  /** Atoms go to the end of an expression, in order. */
  lemma {:induction false} RunAtomsExpression(p: ParseState, es: seq<Value>, vs: seq<Value>)
    requires p.cur == Expression(es)
    ensures Run(p, AtomToks(vs)) == Continue(p.(cur := Expression(es + vs)))
    decreases |vs|
  {
    if vs == [] {
      assert es + vs == es;
    } else {
      var es' := es + [vs[0]];
      RunAtomsExpression(p.(cur := Expression(es')), es', vs[1..]);
      assert es' + vs[1..] == es + vs;
    }
  }

  /** Atoms go to the front of a list, so they end up reversed. */
  lemma {:induction false} RunAtomsList(p: ParseState, xs: seq<Value>, vs: seq<Value>)
    requires p.cur == List(xs)
    ensures Run(p, AtomToks(vs)) == Continue(p.(cur := List(Reversed(vs) + xs)))
    decreases |vs|
  {
    if vs == [] {
      assert Reversed(vs) + xs == xs;
    } else {
      var xs' := [vs[0]] + xs;
      RunAtomsList(p.(cur := List(xs')), xs', vs[1..]);
      assert Reversed(vs[1..]) + xs' == Reversed(vs) + xs;
    }
  }

  /** Classifying a one-token sequence. */
  lemma ClassifyOne(t: string)
    ensures ClassifyAll([t]) == [Classify(t)]
  {
    assert [t][1..] == [];
  }

  /** Closing the only open container adds it to the forms. */
  lemma CloseOutermost(c: Value)
    requires !c.Nil?
    ensures Run(ParseState([], 1, c, [], true), [Close]) == Continue(ParseState([c], 0, Nil, [], true))
  {
    assert [Close][1..] == [];
  }

  lemma RunFlatExpression(vs: seq<Value>)
    ensures Run(Start, [Open] + AtomToks(vs) + [Close]) == Continue(ParseState([Expression(vs)], 0, Nil, [], true))
  {
    var p := ParseState([], 1, Expression([]), [], true);
    assert Run(Start, [Open]) == Continue(p) by {
      assert [Open][1..] == [];
    }
    assert Run(p, AtomToks(vs)) == Continue(p.(cur := Expression(vs))) by {
      RunAtomsExpression(p, [], vs);
      assert [] + vs == vs;
    }
    CloseOutermost(Expression(vs));
    RunAppend(Start, [Open], AtomToks(vs));
    RunAppend(Start, [Open] + AtomToks(vs), [Close]);
  }

  /** `( a b c )` is an Expression holding the atoms in source order. */
  lemma FlatExpression(ts: seq<string>)
    requires forall i :: 0 <= i < |ts| ==> IsAtomToken(ts[i])
    ensures ParseTokens(["("] + ts + [")"]) == Parsed([Expression(Atoms(ts))])
  {
    assert ClassifyAll(["("] + ts + [")"]) == [Open] + AtomToks(Atoms(ts)) + [Close] by {
      ClassifyAtoms(ts);
      ClassifyOne("(");
      ClassifyOne(")");
      ClassifyAppend(["("], ts);
      ClassifyAppend(["("] + ts, [")"]);
    }
    RunFlatExpression(Atoms(ts));
  }

  lemma RunFlatQuotedList(vs: seq<Value>)
    ensures Run(Start, [Quote, Open] + AtomToks(vs) + [Close])
         == Continue(ParseState([List(Reversed(vs))], 0, Nil, [], true))
  {
    var p := ParseState([], 1, List([]), [], true);
    assert Run(Start, [Quote, Open]) == Continue(p) by {
      assert [Quote, Open][1..] == [Open];
      assert [Open][1..] == [];
    }
    assert Run(p, AtomToks(vs)) == Continue(p.(cur := List(Reversed(vs)))) by {
      RunAtomsList(p, [], vs);
      assert Reversed(vs) + [] == Reversed(vs);
    }
    CloseOutermost(List(Reversed(vs)));
    RunAppend(Start, [Quote, Open], AtomToks(vs));
    RunAppend(Start, [Quote, Open] + AtomToks(vs), [Close]);
  }

  /** `' ( a b c )` is a List holding the atoms in reverse source order,
      because List's Append prepends. */
  lemma FlatQuotedList(ts: seq<string>)
    requires forall i :: 0 <= i < |ts| ==> IsAtomToken(ts[i])
    ensures ParseTokens(["'", "("] + ts + [")"]) == Parsed([List(Reversed(Atoms(ts)))])
  {
    assert ClassifyAll(["'", "("] + ts + [")"]) == [Quote, Open] + AtomToks(Atoms(ts)) + [Close] by {
      ClassifyAtoms(ts);
      assert ClassifyAll(["'", "("]) == [Quote, Open] by {
        assert ["'", "("][1..] == ["("];
        ClassifyOne("(");
      }
      ClassifyOne(")");
      ClassifyAppend(["'", "("], ts);
      ClassifyAppend(["'", "("] + ts, [")"]);
    }
    RunFlatQuotedList(Atoms(ts));
  }

  /** An opening bracket inside an open container pushes that container. */
  lemma OpenInside(p: ParseState)
    requires !p.cur.Nil?
    ensures Run(p, [Open]) == Continue(ParseState(p.resp, p.depth + 1,
      if p.eval then Expression([]) else List([]), p.stack + [p.cur], true))
  {
    assert [Open][1..] == [];
  }

  /** A closing bracket with a container on the stack pops it and appends
      the closed form to it. */
  lemma CloseInside(q: ParseState, stack: seq<Value>, top: Value)
    requires q.depth >= 1 && q.stack == stack + [top] && !top.Nil? && AppendTo(top, q.cur).Some?
    ensures Run(q, [Close]) == Continue(ParseState(q.resp, q.depth - 1, AppendTo(top, q.cur).value, stack, q.eval))
  {
    assert [Close][1..] == [];
    assert q.stack[|q.stack| - 1] == top;
    assert q.stack[..|q.stack| - 1] == stack;
  }

  /** A nested form: `( atoms )` inside an open Expression is closed and
      appended to the end of that Expression, which is open again with
      the counter and the stack as they were. */
  lemma RunNested(p: ParseState, es: seq<Value>, vs: seq<Value>)
    requires p.cur == Expression(es) && p.eval && p.depth >= 0
    ensures Run(p, [Open] + AtomToks(vs) + [Close]) == Continue(p.(cur := Expression(es + [Expression(vs)])))
  {
    var q := ParseState(p.resp, p.depth + 1, Expression([]), p.stack + [p.cur], true);
    OpenInside(p);
    RunAtomsExpression(q, [], vs);
    assert [] + vs == vs;
    CloseInside(q.(cur := Expression(vs)), p.stack, p.cur);
    RunAppend(p, [Open], AtomToks(vs));
    RunAppend(p, [Open] + AtomToks(vs), [Close]);
  }

  /** A quoted nested list: `' ( atoms )` inside an open Expression is
      appended to it as a List of the atoms reversed. */
  lemma RunNestedQuoted(p: ParseState, es: seq<Value>, vs: seq<Value>)
    requires p.cur == Expression(es) && p.eval && p.depth >= 0
    ensures Run(p, [Quote, Open] + AtomToks(vs) + [Close])
         == Continue(p.(cur := Expression(es + [List(Reversed(vs))])))
  {
    var q := ParseState(p.resp, p.depth + 1, List([]), p.stack + [p.cur], true);
    assert Run(p, [Quote]) == Continue(p.(eval := false)) by {
      assert [Quote][1..] == [];
    }
    OpenInside(p.(eval := false));
    RunAtomsList(q, [], vs);
    assert Reversed(vs) + [] == Reversed(vs);
    CloseInside(q.(cur := List(Reversed(vs))), p.stack, p.cur);
    assert [Quote, Open] == [Quote] + [Open];
    RunAppend(p, [Quote], [Open]);
    RunAppend(p, [Quote, Open], AtomToks(vs));
    RunAppend(p, [Quote, Open] + AtomToks(vs), [Close]);
  }

  /** A form nested inside a quoted list opens an Expression (the quote
      flag was cleared by the list's own bracket), which the list then
      prepends. */
  lemma RunNestedInList(p: ParseState, xs: seq<Value>, vs: seq<Value>)
    requires p.cur == List(xs) && p.eval && p.depth >= 0
    ensures Run(p, [Open] + AtomToks(vs) + [Close]) == Continue(p.(cur := List([Expression(vs)] + xs)))
  {
    var q := ParseState(p.resp, p.depth + 1, Expression([]), p.stack + [p.cur], true);
    OpenInside(p);
    RunAtomsExpression(q, [], vs);
    assert [] + vs == vs;
    CloseInside(q.(cur := Expression(vs)), p.stack, p.cur);
    RunAppend(p, [Open], AtomToks(vs));
    RunAppend(p, [Open] + AtomToks(vs), [Close]);
  }

  /** Tokens of `( us ( vs ) ws )` leave one Expression holding `us`, the
      Expression of `vs`, then `ws`, all in source order. */
  lemma RunNestedForm(us: seq<Value>, vs: seq<Value>, ws: seq<Value>)
    ensures Run(Start, [Open] + AtomToks(us) + [Open] + AtomToks(vs) + [Close] + AtomToks(ws) + [Close])
         == Continue(ParseState([Expression(us + [Expression(vs)] + ws)], 0, Nil, [], true))
  {
    var inner := [Open] + AtomToks(vs) + [Close];
    Regroup([Open] + AtomToks(us), [Open], AtomToks(vs), [Close]);
    var p0 := ParseState([], 1, Expression([]), [], true);
    assert Run(Start, [Open]) == Continue(p0) by {
      assert [Open][1..] == [];
    }
    var p1 := p0.(cur := Expression(us));
    assert Run(p0, AtomToks(us)) == Continue(p1) by {
      RunAtomsExpression(p0, [], us);
      assert [] + us == us;
    }
    var p2 := p1.(cur := Expression(us + [Expression(vs)]));
    RunNested(p1, us, vs);
    var e := us + [Expression(vs)] + ws;
    RunAtomsExpression(p2, us + [Expression(vs)], ws);
    CloseOutermost(Expression(e));
    RunAppend(Start, [Open], AtomToks(us));
    RunAppend(Start, [Open] + AtomToks(us), inner);
    RunAppend(Start, [Open] + AtomToks(us) + inner, AtomToks(ws));
    RunAppend(Start, [Open] + AtomToks(us) + inner + AtomToks(ws), [Close]);
  }

  lemma Regroup<T>(x: seq<T>, a: seq<T>, b: seq<T>, c: seq<T>)
    ensures x + (a + b + c) == x + a + b + c
  {
  }

  /** The tokens of `( us ( vs ) ws )` classify bracket by bracket and atom
      by atom. */
  lemma ClassifyNested(us: seq<string>, vs: seq<string>, ws: seq<string>)
    requires forall i :: 0 <= i < |us| ==> IsAtomToken(us[i])
    requires forall i :: 0 <= i < |vs| ==> IsAtomToken(vs[i])
    requires forall i :: 0 <= i < |ws| ==> IsAtomToken(ws[i])
    ensures ClassifyAll(["("] + us + ["("] + vs + [")"] + ws + [")"])
         == [Open] + AtomToks(Atoms(us)) + [Open] + AtomToks(Atoms(vs)) + [Close] + AtomToks(Atoms(ws)) + [Close]
  {
    var au, av, aw := AtomToks(Atoms(us)), AtomToks(Atoms(vs)), AtomToks(Atoms(ws));
    ClassifyThenAtoms(["("], [Open], us);
    ClassifyThenOne(["("] + us, [Open] + au, "(");
    ClassifyThenAtoms(["("] + us + ["("], [Open] + au + [Open], vs);
    ClassifyThenOne(["("] + us + ["("] + vs, [Open] + au + [Open] + av, ")");
    ClassifyThenAtoms(["("] + us + ["("] + vs + [")"], [Open] + au + [Open] + av + [Close], ws);
    ClassifyThenOne(["("] + us + ["("] + vs + [")"] + ws, [Open] + au + [Open] + av + [Close] + aw, ")");
  }

  lemma ClassifyThenOne(t: seq<string>, ks: seq<Tok>, x: string)
    requires ClassifyAll(t) == ks
    ensures ClassifyAll(t + [x]) == ks + [Classify(x)]
  {
    ClassifyOne(x);
    ClassifyAppend(t, [x]);
  }

  lemma ClassifyThenAtoms(t: seq<string>, ks: seq<Tok>, ts: seq<string>)
    requires ClassifyAll(t) == ks
    requires forall i :: 0 <= i < |ts| ==> IsAtomToken(ts[i])
    ensures ClassifyAll(t + ts) == ks + AtomToks(Atoms(ts))
  {
    ClassifyAtoms(ts);
    ClassifyAppend(t, ts);
  }

  /** `( us ( vs ) ws )` is one Expression holding the atoms of `us`, the
      Expression of `vs`, then the atoms of `ws`, all in source order. */
  lemma NestedExpression(us: seq<string>, vs: seq<string>, ws: seq<string>)
    requires forall i :: 0 <= i < |us| ==> IsAtomToken(us[i])
    requires forall i :: 0 <= i < |vs| ==> IsAtomToken(vs[i])
    requires forall i :: 0 <= i < |ws| ==> IsAtomToken(ws[i])
    ensures ParseTokens(["("] + us + ["("] + vs + [")"] + ws + [")"])
         == Parsed([Expression(Atoms(us) + [Expression(Atoms(vs))] + Atoms(ws))])
  {
    ClassifyNested(us, vs, ws);
    RunNestedForm(Atoms(us), Atoms(vs), Atoms(ws));
  }

  /** `(a (b c) d)` parses to the Expression `a`, `(b c)`, `d`. */
  lemma NestedSample(ts: seq<string>)
    requires ts == ["(", "a", "(", "b", "c", ")", "d", ")"]
    ensures ParseTokens(ts)
         == Parsed([Expression([Literal("a"), Expression([Literal("b"), Literal("c")]), Literal("d")])])
  {
    SampleWords();
    assert ts == ["("] + ["a"] + ["("] + ["b", "c"] + [")"] + ["d"] + [")"];
    NestedExpression(["a"], ["b", "c"], ["d"]);
    assert [Literal("a")] + [Expression([Literal("b"), Literal("c")])] + [Literal("d")]
        == [Literal("a"), Expression([Literal("b"), Literal("c")]), Literal("d")];
  }

  lemma SampleWords()
    ensures Atoms(["a"]) == [Literal("a")]
    ensures Atoms(["b", "c"]) == [Literal("b"), Literal("c")]
    ensures Atoms(["d"]) == [Literal("d")]
  {
    WordAtoms(["a"], [Literal("a")]);
    WordAtoms(["b", "c"], [Literal("b"), Literal("c")]);
    WordAtoms(["d"], [Literal("d")]);
  }

  /** Tokens that do not end in a digit are read as Literals of themselves. */
  lemma {:induction false} WordAtoms(ts: seq<string>, vs: seq<Value>)
    requires |vs| == |ts|
    requires forall i :: 0 <= i < |ts| ==> |ts[i]| > 0 && !IsDigit(ts[i][|ts[i]| - 1]) && vs[i] == Literal(ts[i])
    ensures Atoms(ts) == vs
    decreases |ts|
  {
    if ts != [] {
      WordAtoms(ts[1..], vs[1..]);
      assert vs == [vs[0]] + vs[1..];
    }
  }

  /** `'(1 2 3)` is the List 3 2 1: its head is 3. */
  lemma QuotedSample(qs: seq<string>)
    requires qs == ["'", "(", "1", "2", "3", ")"]
    ensures ParseTokens(qs) == Parsed([List([Number(3), Number(2), Number(1)])])
  {
    var ts := ["1", "2", "3"];
    assert Atom("1") == Number(1) && Atom("2") == Number(2) && Atom("3") == Number(3);
    assert Atoms(ts) == [Number(1), Number(2), Number(3)] by {
      assert ts[1..] == ["2", "3"] && ts[1..][1..] == ["3"] && ts[1..][1..][1..] == [];
    }
    var vs := Atoms(ts);
    assert Reversed(vs) == [Number(3), Number(2), Number(1)] by {
      assert vs[1..] == [Number(2), Number(3)] && vs[1..][1..] == [Number(3)] && vs[1..][1..][1..] == [];
      assert Reversed([Number(3)]) == [Number(3)];
      assert Reversed([Number(2), Number(3)]) == [Number(3), Number(2)];
    }
    FlatQuotedList(ts);
    assert qs == ["'", "("] + ts + [")"];
  }

  /** Only an opening bracket clears the quote flag, and only a quote
      sets it: a quote before an atom or a closing bracket still applies
      to the next opening bracket, which then starts a List. */
  lemma {:induction false} QuoteFlag(p: ParseState, ks: seq<Tok>)
    requires forall i :: 0 <= i < |ks| ==> ks[i] != Open
    ensures Run(p, ks).Continue? ==> Run(p, ks).st.eval == (p.eval && Quote !in ks)
    decreases |ks|
  {
    if ks != [] && Step(p, ks[0]).Continue? {
      QuoteFlag(Step(p, ks[0]).st, ks[1..]);
      assert ks == [ks[0]] + ks[1..];
    }
  }

  /** An opening bracket starts a List exactly when a quote is pending. */
  lemma OpenBracket(p: ParseState)
    ensures Step(p, Open).Continue?
    ensures Step(p, Open).st.cur == if p.eval then Expression([]) else List([])
    ensures Step(p, Open).st.eval
  {
  }

  // ---------------------------------------------------------------------
  // The parser

  class Parser {
    const lexer: Lexing.Lexer

    /** NewParser (parser.go:192-196). */
    constructor (l: Lexing.Lexer)
      ensures lexer == l
    {
      lexer := l;
    }

    /** Parse (parser.go:198-260): reads every token and builds the forms.
        The end of input ends the loop normally. Parse's local variables
        are kept together in `st`; the body of the loop is Consume. */
    method Parse() returns (r: ParseResult)
      requires lexer.Valid()
      modifies lexer
      ensures r == ParseTokens(Lexing.Tokens(lexer.input, old(lexer.pos)))
    {
      var st := Start;
      ghost var seen: seq<string> := [];
      ghost var all := Lexing.Tokens(lexer.input, lexer.pos);
      while true
        invariant lexer.Valid()
        invariant seen + Lexing.Tokens(lexer.input, lexer.pos) == all
        invariant Run(Start, ClassifyAll(seen)) == Continue(st)
        decreases |lexer.input| - lexer.pos
      {
        ghost var before := lexer.pos;
        var t := lexer.ReadToken();
        if t.Eof? {
          assert seen == all;
          break;
        }
        var tok := t.value;
        ghost var rest := Lexing.Tokens(lexer.input, lexer.pos);
        assert Lexing.Tokens(lexer.input, before) == [tok] + rest;
        assert (seen + [tok]) + rest == all;
        var next := Consume(st, tok);
        ghost var ks := ClassifyAll(seen + [tok]);
        assert Run(Start, ks) == next by {
          ClassifyAppend(seen, [tok]);
          ClassifyOne(tok);
          RunAppend(Start, ClassifyAll(seen), [Classify(tok)]);
        }
        ClassifyAppend(seen + [tok], rest);
        RunAppend(Start, ks, ClassifyAll(rest));
        if next.Halt? {
          return next.res;
        }
        seen := seen + [tok];
        st := next.st;
      }
      if st.depth != 0 {
        return Failed(UnmatchedPair);
      }
      return Parsed(st.resp);
    }
  }

  /** One pass of Parse's loop (parser.go:215-254): the switch on the
      token, updating Parse's locals or leaving the loop with a result. */
  method Consume(p: ParseState, tok: string) returns (x: StepResult)
    ensures x == Step(p, Classify(tok))
  {
    var ParseState(resp, depth, s, stack, eval) := p;
    if tok == "'" {
      eval := false;
    } else if tok == "(" {
      depth := depth + 1;
      if !s.Nil? {
        stack := stack + [s];
      }
      s := if eval then Expression([]) else List([]);
      eval := true;
    } else if tok == ")" {
      if depth - 1 < 0 {
        return Halt(Failed(UnmatchedPair));
      }
      depth := depth - 1;
      if |stack| > 0 {
        var top := stack[|stack| - 1];
        if top.Nil? {
          return Halt(Panicked(NilDereference));
        }
        var a := AppendTo(top, s);
        if a.None? {
          return Halt(Failed(CannotAppend));
        }
        s := a.value;
        stack := stack[..|stack| - 1];
      } else {
        resp := resp + [s];
        s := Nil;
      }
    } else {
      if s.Nil? {
        return Halt(Panicked(NilDereference));
      }
      var a := AppendTo(s, Atom(tok));
      if a.Some? {
        s := a.value;
      }
    }
    return Continue(ParseState(resp, depth, s, stack, eval));
  }
}
