# clojura core in Dafny

A model of the language core of clojura. Clojura is a small Lisp written in Go: a tokenizer, an iterative parser, a tree-walking evaluator with chained Contexts, native functions and macros, and a persistent linked list. The modules follow the four Go files:

- `PersistentList` (list.go). The `List`/`Node` chain is a heap structure: class `PList<T>` over `Node<T>`, with ghost `Contents`, `nodes` and `Repr`. Copying, prepending, splicing and the in-place rewrite of `Eval` are methods proved against `Contents`.
- `Lexing` (lexer.go). `NextToken`/`Tokens` say what `ReadToken` returns from a reading position. The `Lexer` class reads runes one at a time, with one-rune pushback, as the Go code does over its `bufio.Reader`. Each method is proved to agree with the specification functions.
- `Values` and `Parsing` (parser.go):
  - `Values` holds the variant set and its truthiness. Go's nil `Sexpr` is the variant `Nil`. Go runtime panics are the outcome `Panic`.
  - `Parsing` holds `strconv.Atoi`/`Itoa` on 64-bit `int`, and the token loop of `Parser.Parse`. The specification is the fold `ParseTokens`; the class method `Parser.Parse` keeps the Go locals and is proved equal to it.
- `Env`, `Prims`, `Semantics`, `EvalProperties`, `Interp` (core.go and the `Eval` methods):
  - `Env`: Contexts live in a store and are named by their index, because closures and calls share them. `Get` walks the parent chain; `Set` writes one Context.
  - `Prims`: the natives (`+ - eq not head tail cons conj range odd?`, plus `println` and `recur` as values). `+`, `-` and `range` keep their loops as methods.
  - `Semantics`: the evaluator as pure functions with fuel. `EvalProperties`: lemmas about those functions.
  - `Interp.Interpreter` is the imperative evaluator. It updates its Contexts in place, fills the argument array, runs the `recur` loop of `function.Call` in one Context, and runs the loops of `do` and `List.Eval`. Every method is proved to give the value and leave the store that `Semantics` says.
- `Countdown`: the tail-recursive countdown `((fn (n) (if (eq n 0) 0 (recur (- n 1)))) k)` returns 0 for every `k >= 0`, using `k + 1` runs of the body.

Where the code and its design notes disagree, the model follows the code:

- **`recur` reuses the Context.** Each iteration of `function.Call` rebinds the one Context created at the start of the call (core.go:74), not a fresh one.
- **The parser drops a trailing token.** The lexer reports end of input inside a symbol, a string or a comment as an error. The parser treats that error as the normal end (parser.go:208-212), so such a token is dropped without error.
- **The quote flag persists.** A `'` makes the next `(` open a List even when other tokens come between them. The flag is reset only by `(` (parser.go:216-229).
- **Stray atoms and brackets.** An atom outside every bracket is appended to a nil container, which is a nil dereference (parser.go:250). `[ ] { }` are tokens of the lexer but Literals to the parser.
- **List construction order:**
  - Quoted lists are built reversed, because `List.Append` prepends (list.go:123-128).
  - `conj a b` gives b's elements, then a's (core.go:403).
- **`Boolean` is a value.** `Boolean` is declared as a struct with pointer methods (parser.go:161-186) but is used as `Boolean(bool)`. It is modelled as one `Boolean(b)` variant.
- **`log.Error` can panic.** Several natives build the argument of a `log.Error` call with `args[0].Type()`, which panics on a nil argument. `log.Error` itself is a no-op here, but that panic is kept (`head`, `tail`, `range`, `odd?`, `conj`).
- **Numbers are 64-bit.** `Number` is Go's 64-bit `int`. `+`, `-` and `range`'s `n - 1` wrap around explicitly. `range` of the least int therefore has 2^63 elements.

## Model

| member | source | states |
|---|---|---|
| Values.Wrap | core.go:192-219 | two's-complement wrap of Go int arithmetic: the identity on 64-bit values, and congruent to its input modulo 2^64 |
| Values.TypeOf | core.go:100-153 | the Type() tag of a non-nil value; TypeFunction exactly for natives and closures, TypeMacros exactly for macros |
| Values.SizeSeqElem | parser.go:91-111 | each element of a form is smaller than the form, so evaluation of sub-forms terminates |
| Lexing.SkipWhitespace | lexer.go:136-162 | the first non-whitespace position at or after i; everything skipped is space, tab or newline |
| Lexing.FindChar | lexer.go:108-134 | the first position of a given rune at or after i, with no earlier occurrence |
| Lexing.FindSeparator | lexer.go:92-106 | the first separator at or after i, with none before it |
| Lexing.NextToken | lexer.go:54-90 | what one ReadToken call yields from position i: a non-empty token ending after i, or end of input |
| Lexing.Scan | lexer.go:59-87 | the body of ReadToken's loop from a rune already read: a non-empty token ending after it, or end of input |
| Lexing.Tokens | parser.go:207-214 | the token stream read until end of input; no token is empty |
| Lexing.TokenShape | lexer.go:54-90 | each token is a contiguous slice of the input and is a one-rune bracket, a complete string with both quotes, or a symbol with no separator inside and one right after it |
| Lexing.ScanShape | lexer.go:59-87 | the same shape for the token scanned from a rune already read |
| Lexing.LeadingWhitespace | lexer.go:62-67 | whitespace before a token is skipped |
| Lexing.CommentSkipped | lexer.go:74-79 | `;` discards everything through the next newline; a comment running to the end leaves no token |
| Lexing.UnterminatedString | lexer.go:68-73 | a string literal with no closing quote is never returned, whatever runes it holds; the reader reports end of input (lexer.go:108-121) |
| Lexing.UnterminatedSymbol | lexer.go:80-106 | a symbol that runs to the end of input is never returned, even with a quote inside it |
| Lexing.UnterminatedSamples | lexer.go:68-106 | `"b c` and `a"b` at the end of input give no token |
| Lexing.SampleLineTokens | lexer.go:54-90 | `'(a "b c") ; note` and a newline lex to `'`, `(`, `a`, `"b c"`, `)`; the comment leaves no token |
| Lexing.SampleLineFrom2 | lexer.go:80-86 | from the symbol on: `a`, `"b c"`, `)` |
| Lexing.SampleLineFrom3 | lexer.go:68-73 | from the space on: the string keeps its inner space, then `)` |
| Lexing.SampleLineFrom9 | lexer.go:60-61 | the closing bracket is a token of its own |
| Lexing.SampleLineFrom10 | lexer.go:74-79 | after the bracket only whitespace and a comment are left, which give no token |
| Lexing.Lexer.constructor | lexer.go:48-52 | a reader at the start of the input, with nothing to unread |
| Lexing.Lexer.ReadRune | lexer.go:55 | the next rune and one step forward, or end of input where the position stays |
| Lexing.Lexer.UnreadRune | lexer.go:93 | steps back one rune only right after a successful read |
| Lexing.Lexer.ReadToken | lexer.go:54-90 | yields exactly NextToken from the old position and moves past it |
| Lexing.Lexer.ReadStringToken | lexer.go:68-73 | the string branch: the quoted span with both quotes |
| Lexing.Lexer.ReadSymbolToken | lexer.go:80-86 | the symbol branch: the first rune plus the rest up to a separator |
| Lexing.Lexer.ReadSymbolRest | lexer.go:92-106 | the runes up to the next separator, which is pushed back; end of input if there is none |
| Lexing.Lexer.ReadWhile | lexer.go:108-121 | the runes before the next `cr`, consuming it; end of input if there is none |
| Lexing.Lexer.DrainWhile | lexer.go:123-134 | skips through the next `t`; end of input if there is none |
| Lexing.Lexer.DrainWhitespace | lexer.go:136-147 | returns the first non-whitespace rune and moves past it; end of input if there is none |
| Lexing.Lexer.ReadAll | parser.go:207-214 | reading tokens until end of input yields Tokens of the input |
| Parsing.DigitChar | parser.go:145-147 | the decimal digit for 0-9, whose value is the digit |
| Parsing.Atoi | parser.go:248 | accepts only text ending in a digit |
| Parsing.DecimalDigits | parser.go:145-147 | a non-empty digit string without leading zeros whose value is m |
| Parsing.AtoiItoa | parser.go:248-253 | Atoi of Itoa(n) is n exactly when n fits in 64 bits |
| Parsing.AtoiRejectsSignAlone | parser.go:248-253 | "", "-" and "+" are not numbers, so they become Literals |
| Parsing.AppendTo | parser.go:45-80 | Append succeeds only on Expression, List and Recur; an Expression grows at the end, a List at the front, a Recur is unchanged |
| Parsing.Atom | parser.go:247-253 | an atom token becomes a Number or the Literal of its own text |
| Parsing.Classify | parser.go:215-254 | the four arms of the token switch; every token other than `'`, `(` and `)` is an atom |
| Parsing.ClassifyAll | parser.go:207-215 | one classified token per token |
| Parsing.ClassifyAppend | parser.go:207-215 | classifying a concatenation is concatenating the classifications |
| Parsing.RunAppend | parser.go:207-255 | the loop over `a + b` is the loop over `a`, then over `b`, unless `a` stopped it |
| Parsing.RunHaltsOnError | parser.go:230-239 | the loop stops early only with an error or a panic, never with a result |
| Parsing.StepBracket | parser.go:219-246 | one token moves the bracket balance as counting brackets says; a `)` with no open `(` fails with "unmatched pair"; an atom at top level panics |
| Parsing.RunBracket | parser.go:219-246 | the same for a token sequence: the balance never goes negative and is the count of open brackets |
| Parsing.ParseByBrackets | parser.go:198-260 | Parse succeeds exactly when the brackets balance with no atom outside them; otherwise it panics or fails with "unmatched pair", never with an append error |
| Parsing.RunPrefixed | parser.go:243-245 | forms already read are kept, in order, ahead of those read later |
| Parsing.ParseConcat | parser.go:198-260 | parsing a complete program followed by more text gives the first program's forms followed by the rest's |
| Parsing.ClassifyAtoms | parser.go:247-253 | a run of atom tokens classifies to their values |
| Parsing.RunAtomsExpression | parser.go:77-80 | atoms read into an Expression are appended in source order |
| Parsing.RunAtomsList | list.go:123-128 | atoms read into a List are prepended, so they end up reversed |
| Parsing.ClassifyOne | parser.go:215-254 | a single token classifies to its own class |
| Parsing.CloseOutermost | parser.go:243-245 | closing the outermost bracket moves the form to the results |
| Parsing.RunFlatExpression | parser.go:219-246 | `(` atoms `)` makes one Expression of the atoms in order |
| Parsing.FlatExpression | parser.go:198-260 | Parse of `(` atoms `)` is that single Expression |
| Parsing.RunFlatQuotedList | parser.go:216-229 | `'` `(` atoms `)` makes one List of the atoms reversed |
| Parsing.FlatQuotedList | parser.go:198-260 | Parse of a quoted flat list is that reversed List, its last atom first |
| Parsing.QuotedSample | parser.go:216-229 | `'(1 2 3)` parses to the List 3 2 1, whose head is 3 |
| Parsing.OpenInside | parser.go:219-229 | `(` inside an open container pushes it and opens an Expression, or a List after a quote, one level deeper |
| Parsing.CloseInside | parser.go:230-242 | `)` with a container on the stack appends the closed form to it, pops it and makes it current again |
| Parsing.RunNested | parser.go:219-253 | `( atoms )` inside an open Expression is appended to its end as one Expression, leaving the depth and stack as before |
| Parsing.RunNestedQuoted | parser.go:216-253 | `'( atoms )` inside an open Expression is appended to its end as a List of the atoms reversed |
| Parsing.RunNestedInList | parser.go:219-253 | `( atoms )` inside a List opens an Expression, since the flag was reset, and the List prepends it |
| Parsing.RunNestedForm | parser.go:198-260 | the tokens of `( us ( vs ) ws )` leave one top-level Expression holding us, the Expression of vs, then ws, in source order |
| Parsing.ClassifyNested | parser.go:215-254 | the tokens of `( us ( vs ) ws )` classify bracket by bracket and atom by atom |
| Parsing.NestedExpression | parser.go:198-260 | Parse of `( us ( vs ) ws )` is one Expression with the inner form nested at its place |
| Parsing.WordAtoms | parser.go:248-253 | tokens not ending in a digit are read as Literals of themselves |
| Parsing.SampleWords | parser.go:248-253 | `a`, `b`, `c` and `d` are Literals |
| Parsing.NestedSample | parser.go:198-260 | `(a (b c) d)` parses to an Expression of `a`, the Expression `(b c)`, and `d` |
| Parsing.QuoteFlag | parser.go:216-229 | without a `(`, the quote flag is cleared only if it was clear and no `'` came |
| Parsing.OpenBracket | parser.go:219-229 | `(` opens a List after a quote, otherwise an Expression, and resets the flag |
| Parsing.Parser.constructor | parser.go:192-196 | a parser over the given lexer |
| Parsing.Parser.Parse | parser.go:198-260 | the loop over the lexer's tokens gives ParseTokens of the token stream |
| Parsing.Consume | parser.go:215-254 | the switch on one token string does what Step on its class says |
| PersistentList.Node.constructor | list.go:15-18 | a node with the given value and successor |
| PersistentList.Rewritten | list.go:146-158 | the rewritten sequence has the same length, with each element rewritten on its own |
| PersistentList.RewrittenUnique | list.go:146-158 | a sequence rewritten element by element is Rewritten |
| PersistentList.PList.constructor | list.go:26-32 | NewList: an empty valid list with no tail |
| PersistentList.PList.Of | list.go:48-52 | a header over an existing chain |
| PersistentList.PList.Copy | list.go:34-53 | a list of fresh nodes with the same contents and Len, whose Tail is its own last node |
| PersistentList.PList.Conj | list.go:55-68 | a fresh list with contents l ++ a and Len the sum; neither input is modified |
| PersistentList.PList.Splice | list.go:64-66 | linking b's chain after the last node appends b's contents |
| PersistentList.PList.AddFast | list.go:70-77 | prepends in place, with Len + 1; Tail is left alone |
| PersistentList.PList.Add | list.go:79-93 | a new list with s in front that shares the old chain; Tail is the new node only when the list was empty; the receiver is unchanged |
| PersistentList.PList.Head | list.go:95-100 | the first element, or none for the empty list |
| PersistentList.PList.GetTail | list.go:101-115 | the empty list for an empty list; otherwise the rest of the chain, shared, with Len - 1 |
| PersistentList.PList.Length | list.go:116-118 | the number of elements |
| PersistentList.PList.Append | list.go:123-128 | prepends in place, with Len + 1 |
| PersistentList.PList.Eval | list.go:144-160 | a fresh copy whose non-nil elements are rewritten in order; Len is kept and the original is untouched |
| PersistentList.PList.RewriteValues | list.go:146-158 | the in-place loop over the copy rewrites every non-nil element |
| PersistentList.PList.RewriteNode | list.go:148-150 | rewriting one node changes only that element |
| PersistentList.PList.Bool | list.go:161-166 | a list is true exactly when it is non-empty |
| Env.NewFrame | core.go:19-24 | a new empty Context with the given parent, at a new index |
| Env.SetVar | core.go:45-47 | writes the key in the one Context only; every other Context is unchanged |
| Env.LookupChain | core.go:37-43 | a binding in the Context shadows its parents; a miss falls back to the parent; a miss at the root is not found |
| Env.GetAfterSet | core.go:37-47 | after Set, Get from the same Context finds the new value |
| Env.GetOtherAfterSet | core.go:37-47 | Set leaves every other key unchanged, seen from the same Context |
| Env.SetOtherKey | core.go:37-47 | Set of one key changes no lookup of another key from any Context |
| Env.SetInvisible | core.go:45-47 | Set in a Context that is not on d's chain is invisible from d |
| Env.NewFrameLookup | core.go:19-43 | a new Context sees exactly what its parent sees, and creating it changes no existing lookup |
| Env.NewFrameKeeps | core.go:19-24 | creating a Context changes no existing lookup |
| Env.OrderedKept | core.go:19-47 | NewContext and Set keep parents before children |
| Env.InitialStore | core.go:169-190 | coreContext is the only Context; it binds `if` and `+` to the native macro and function, and not `x` |
| Prims.WrapCongruent | core.go:192-219 | arguments congruent modulo 2^64 wrap to the same int |
| Prims.ModAddMultiple | core.go:192-219 | adding a multiple of 2^64 does not change the residue |
| Prims.WrapStep | core.go:192-219 | wrapping after every step of a sum or difference is wrapping once at the end |
| Prims.SumSnoc | core.go:192-202 | the sum grows by each Number argument, and non-Numbers add nothing |
| Prims.SumAppend | core.go:192-202 | the sum over a concatenation is the sum of the sums |
| Prims.Add | core.go:192-202 | the accumulation loop of `+` gives the wrapped sum of the Number arguments |
| Prims.Sub | core.go:204-219 | the loop of `-` gives the first Number minus the later Numbers, wrapped |
| Prims.PlusExact | core.go:192-202 | without overflow `+` is the exact sum, and non-Number arguments are ignored |
| Prims.MinusUndoesPlus | core.go:192-219 | `(- (+ a b) b)` is a, wrap-around included |
| Prims.MinusLeading | core.go:204-219 | one argument gives itself; a non-Number first argument counts as 0 |
| Prims.EqTrue | core.go:234-269 | `eq` holds exactly for the same Number, the same Boolean or the same closure; never for Literals, Lists or Expressions |
| Prims.EqPanics | core.go:234-269 | `eq` panics exactly on one argument, a nil argument, two macros or two natives |
| Prims.EqSymmetric | core.go:234-269 | `eq` does not depend on argument order |
| Prims.NotNot | core.go:271-284 | `not` twice gives the Boolean of the truthiness |
| Prims.HeadTailCons | core.go:342-372 | `cons v l` puts v in front, and `head` and `tail` take it apart again |
| Prims.ConsHeadTail | core.go:433-452 | `cons` of the head and tail of a non-empty list rebuilds it |
| Prims.ConjAssociative | core.go:374-404 | `conj` puts b's elements before a's, has the empty list as identity, and is associative |
| Prims.Naturals | core.go:467-469 | the list of the first k naturals has length k |
| Prims.RangeOf | core.go:454-472 | the countdown loop that prepends n-1 down to 0 gives Range |
| Prims.RangeContents | core.go:454-472 | `range n` is 0..n-1, empty for n <= 0, and 2^63 elements for the least int |
| Prims.GoRem | core.go:485 | Go's truncating `%`: the remainder has the dividend's sign |
| Prims.OddParity | core.go:474-486 | `odd?` holds exactly of odd numbers, negatives included, and flips from each number to the next |
| Semantics.EvalSeq | parser.go:100-103 | evaluating a sequence of forms gives one value per form |
| EvalProperties.GrowsTrans | core.go:19-47 | store growth composes |
| EvalProperties.SetVarGrows | core.go:45-47 | Set only changes the Context it writes |
| EvalProperties.BindAllGrows | core.go:82-84 | binding arguments only changes the call's own Context |
| EvalProperties.EvalGrows | parser.go:91-111 | evaluation only adds Contexts, keeps every parent link, and changes no Context other than coreContext |
| EvalProperties.EvalSeqGrows | parser.go:100-103 | the same for a sequence of forms |
| EvalProperties.EvalFormGrows | parser.go:91-111 | the same for a call or macro form |
| EvalProperties.ApplyGrows | core.go:73-140 | the same for a call |
| EvalProperties.CallLoopGrows | core.go:77-92 | the loop of function.Call changes only its own Context and coreContext |
| EvalProperties.ApplyMacroGrows | core.go:221-427 | the same for every native macro |
| EvalProperties.EvalKeepsContexts | parser.go:91-111 | every Context other than coreContext that existed before evaluation is unchanged after it |
| EvalProperties.CallNeverRecur | core.go:73-94 | the loop of function.Call never returns a Recur |
| EvalProperties.ClosureNeverRecur | core.go:73-94 | calling a closure never returns a Recur |
| EvalProperties.ArityMismatch | core.go:78-81 | a call with the wrong number of arguments returns nil without evaluating the body |
| EvalProperties.RecurArityMismatch | core.go:78-89 | the arity check is repeated on every recur iteration |
| EvalProperties.BindAllLookup | core.go:82-84 | after binding, each distinct parameter names its argument |
| EvalProperties.BindAllKeeps | core.go:82-84 | binding leaves keys that are not parameters alone |
| EvalProperties.DefBindsRoot | core.go:221-232 | `def` evaluates its value in the calling Context, binds it in coreContext and returns it; otherwise it returns nil and binds nothing |
| EvalProperties.IfBranch | core.go:320-340 | `if` evaluates the condition once, then the then-branch iff the result is non-nil and truthy, otherwise the else-branch when there are exactly four elements and it is non-nil, and nil in every other case |
| EvalProperties.IfTooShort | core.go:320-323 | `if` with fewer than three elements returns nil and evaluates nothing |
| EvalProperties.DoLast | core.go:406-416 | `do` evaluates its forms in order and returns the last value |
| EvalProperties.FnCaptures | core.go:299-318 | `fn` makes a new closure over the calling Context, with the given body and one parameter per name |
| EvalProperties.NamesLength | core.go:309-316 | the parameter names are the Literals' names, in order |
| EvalProperties.EvalSeqAppend | parser.go:100-103 | forms are evaluated left to right, each in the store the previous left |
| EvalProperties.SelfEvaluating | parser.go:131-159 | Numbers, Booleans, functions, macros and Recurs evaluate to themselves; a Literal evaluates to its binding or itself; the empty form gives nil |
| EvalProperties.EvalFuel | parser.go:91-111 | more fuel never changes a result reached with less |
| EvalProperties.EvalSeqFuel | parser.go:100-103 | the same for a sequence of forms |
| EvalProperties.EvalFormFuel | parser.go:91-111 | the same for a form |
| EvalProperties.ApplyFuel | core.go:73-140 | the same for a call |
| EvalProperties.CallLoopFuel | core.go:77-92 | the same for the recur loop |
| EvalProperties.ApplyMacroFuel | core.go:221-427 | the same for a native macro |
| Interp.PrefixedNone | parser.go:100-103 | nothing evaluated yet adds nothing |
| Interp.EvalSeqUnfold | parser.go:100-103 | evaluating from element i is evaluating element i, then the rest |
| Interp.EvalSeqEnd | parser.go:100-103 | past the last element nothing is left to evaluate |
| Interp.Interpreter.constructor | core.go:169-190 | the store holds only coreContext as init fills it |
| Interp.Interpreter.NewContext | core.go:19-24 | adds an empty Context with the given parent |
| Interp.Interpreter.Set | core.go:45-47 | writes one key of one Context in place |
| Interp.Interpreter.Bind | core.go:82-84 | the binding loop leaves the store BindAll gives |
| Interp.Interpreter.Eval | parser.go:91-137 | e.Eval(c) gives the value and store Semantics.Eval gives |
| Interp.Interpreter.EvalList | list.go:144-160 | List.Eval's loop gives the List of evaluated elements, nil elements kept |
| Interp.Interpreter.EvalForm | parser.go:91-111 | Expression.Eval with the argument array agrees with the specification |
| Interp.Interpreter.Apply | core.go:73-140 | fun.Call agrees with the specification for natives and closures |
| Interp.Interpreter.Call | core.go:73-94 | the recur loop in one Context agrees with CallLoop |
| Interp.Interpreter.Create | core.go:163-165 | macro dispatch agrees with the specification |
| Interp.Interpreter.Def | core.go:221-232 | coreDef agrees with the specification |
| Interp.Interpreter.Fn | core.go:299-318 | coreFn's parameter loop and closure agree with the specification |
| Interp.Interpreter.If | core.go:320-340 | ifMacro agrees with the specification |
| Interp.Interpreter.Do | core.go:406-416 | doMacro's loop agrees with the specification |
| Interp.Interpreter.Time | core.go:418-427 | `time` evaluates its operand once and returns it |
| Interp.Interpreter.CallNative | core.go:138-140 | calling a native runs its loop where it has one and gives Prims.Native; `println` returns nil and `recur` wraps its arguments |
| Countdown.PairArgs | parser.go:100-103 | `n` and a number evaluate to n's value and the number |
| Countdown.TestValue | core.go:234-269 | `(eq n 0)` is whether n is 0 |
| Countdown.DecrementValue | core.go:204-219 | `(- n 1)` is n - 1 |
| Countdown.AgainValue | core.go:429-431 | `(recur (- n 1))` is the Recur sentinel carrying n - 1 |
| Countdown.BodyValue | core.go:320-340 | one run of the body gives 0 at n = 0, otherwise a Recur of n - 1, and changes nothing |
| Countdown.BindN | core.go:82-84 | binding n keeps the natives visible |
| Countdown.CountdownLoop | core.go:77-92 | from any k >= 0 the recur loop returns 0 within k + 1 body runs |
| Countdown.CountdownCall | core.go:73-94 | the closure applied to k returns 0 |
| Countdown.RootSees | core.go:169-190 | coreContext binds `fn`, `if`, `eq`, `-` and `recur` |
| Countdown.LambdaValue | core.go:299-318 | the `fn` form makes the next closure, over coreContext |
| Countdown.ProgramValue | parser.go:91-111 | the whole form evaluated in coreContext returns 0 |
| Countdown.CountdownProgram | core.go:73-94 | the countdown returns 0 from the initial store for every k >= 0 |

## Left out

- I/O. `println` prints nothing and only returns nil (core.go:286-297). `time` reads no clock and prints nothing (core.go:418-427). `function.Call` does not print its arity message (core.go:79). `log.Debug`/`log.Error` print nothing.
- `String()` rendering of values (parser.go:49-56, 82-89, 119-121, 145-147, 169-174; list.go:129-141; core.go:96-98). The panic of rendering a Recur holding nil, which only `println` can reach, is left out with it. `Itoa` is modelled only as the inverse of `Atoi`.
- Non-termination. Every run of a function body consumes one unit of fuel, and running out is the outcome OutOfFuel. Programs that do not terminate have no result at any fuel, and a deep non-tail recursion does not exhaust a stack.
- Go runtime panics end a run. The model does not track the store they leave behind.
- List values are their contents (a `seq`), not `*List` pointers. Every operation on a List value copies first or builds a new header, so no List value is observably updated in place. `PList` still models the heap behaviour of list.go. `PList.Eval` takes the element rewrite as a pure function, because the evaluator lives in another module.
- A closure's name is not modelled. coreFn names the closure after the rendering of the form's head (core.go:304) and passes it to `NewFunction` (core.go:317). The name is used only by `String()` and the arity message. Closure identity is a counter. Go compares two closures by pointer, which the counter reproduces.
- Env.Lookup: it stops at a parent link that does not point to an earlier Context, which the Go code cannot hold. The model proves that NewContext and Set keep parents before children (Env.OrderedKept). It does not prove that every Context index a closure captures is valid.
- Lexer errors other than end of input (a failing reader), and `bufio` buffering, are not modelled. The reader is a string and a position.
- main.go, repl.go, init.go (the prelude text), log.go and list_test.go are not part of this model.
