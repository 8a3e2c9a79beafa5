/**
 * lexer.go: splitting program text into tokens.
 *
 * The specification is the pure function `NextToken`, which says what one
 * call of `ReadToken` returns from a given reading position, and `Tokens`,
 * the whole token stream. The `Lexer` class reads runes one at a time
 * through a buffered reader, as the Go code does, and each of its methods
 * is proved to agree with the specification.
 */
module Lexing {

  /** Runes that form a token on their own (lexer.go:35-42). */
  predicate IsToken(c: char) {
    c == '(' || c == ')' || c == '[' || c == ']' || c == '{' || c == '}'
  }

  /** Runes that end a symbol (lexer.go:23-33). */
  predicate IsSeparator(c: char) {
    IsToken(c) || c == ' ' || c == '\t' || c == '\n'
  }

  /** Runes skipped between tokens (lexer.go:157-162); '\r' is not one. */
  predicate IsWhitespace(c: char) {
    c == ' ' || c == '\n' || c == '\t'
  }

  /** The first position at or after `i` that holds no whitespace, or |s|. */
  function SkipWhitespace(s: string, i: nat): (j: nat)
    requires i <= |s|
    ensures i <= j <= |s|
    ensures j < |s| ==> !IsWhitespace(s[j])
    ensures forall k :: i <= k < j ==> IsWhitespace(s[k])
    decreases |s| - i
  {
    if i == |s| || !IsWhitespace(s[i]) then i else SkipWhitespace(s, i + 1)
  }

  /** The first position at or after `i` that holds `c`, or |s|. */
  function FindChar(s: string, i: nat, c: char): (j: nat)
    requires i <= |s|
    ensures i <= j <= |s|
    ensures j < |s| ==> s[j] == c
    ensures forall k :: i <= k < j ==> s[k] != c
    decreases |s| - i
  {
    if i == |s| || s[i] == c then i else FindChar(s, i + 1, c)
  }

  /** The first position at or after `i` that holds a separator, or |s|. */
  function FindSeparator(s: string, i: nat): (j: nat)
    requires i <= |s|
    ensures i <= j <= |s|
    ensures j < |s| ==> IsSeparator(s[j])
    ensures forall k :: i <= k < j ==> !IsSeparator(s[k])
    decreases |s| - i
  {
    if i == |s| || IsSeparator(s[i]) then i else FindSeparator(s, i + 1)
  }

  /** What one call of ReadToken yields: a token and the position the
      reader is left at, or the end-of-input error. */
  datatype Lexed = Token(text: string, next: nat) | EndOfInput

  /** ReadToken (lexer.go:54-90) from reading position `i`. */
  function NextToken(s: string, i: nat): (r: Lexed)
    requires i <= |s|
    ensures r.Token? ==> i < r.next <= |s| && |r.text| > 0
  {
    if i == |s| then EndOfInput else Scan(s, i)
  }

  /** The loop of ReadToken, with the rune at `i` already read. */
  function Scan(s: string, i: nat): (r: Lexed)
    requires i < |s|
    ensures r.Token? ==> i < r.next <= |s| && |r.text| > 0
    decreases |s| - i
  {
    var c := s[i];
    if IsToken(c) then
      Token([c], i + 1)
    else if IsWhitespace(c) then
      var j := SkipWhitespace(s, i + 1);
      if j == |s| then EndOfInput else Scan(s, j)
    else if c == '"' then
      var j := FindChar(s, i + 1, '"');
      if j == |s| then EndOfInput else Token(s[i..j + 1], j + 1)
    else if c == ';' then
      var j := FindChar(s, i + 1, '\n');
      if j == |s| then EndOfInput else Scan(s, j)
    else
      var j := FindSeparator(s, i + 1);
      if j == |s| then EndOfInput else Token(s[i..j], j)
  }

  /** Every token ReadToken returns before reporting the end of input. */
  function Tokens(s: string, i: nat): (ts: seq<string>)
    requires i <= |s|
    ensures forall k :: 0 <= k < |ts| ==> |ts[k]| > 0
    decreases |s| - i
  {
    match NextToken(s, i)
    case EndOfInput => []
    case Token(t, n) => [t] + Tokens(s, n)
  }

  /** A string literal token: quotes around text without quotes. */
  predicate IsStringToken(t: string) {
    |t| >= 2 && t[0] == '"' && t[|t| - 1] == '"' &&
    forall k :: 0 < k < |t| - 1 ==> t[k] != '"'
  }

  /** A symbol token: a first rune that starts neither another token, nor
      whitespace, a string or a comment, then runes that are no separators. */
  predicate IsSymbolToken(t: string) {
    |t| >= 1 && !IsSeparator(t[0]) && t[0] != '"' && t[0] != ';' &&
    forall k :: 0 < k < |t| ==> !IsSeparator(t[k])
  }

  /** Each token is a piece of the input that ends where the reader is
      left, and is a single brace, a string literal, or a symbol whose
      terminating separator is left unread. */
  lemma {:induction false} TokenShape(s: string, i: nat)
    requires i <= |s|
    ensures match NextToken(s, i)
      case EndOfInput => true
      case Token(t, n) =>
        (exists k :: i <= k < n && t == s[k..n]) &&
        ((|t| == 1 && IsToken(t[0])) ||
         IsStringToken(t) ||
         (IsSymbolToken(t) && n < |s| && IsSeparator(s[n])))
    decreases |s| - i
  {
    if i < |s| {
      ScanShape(s, i);
    }
  }

  lemma {:induction false} ScanShape(s: string, i: nat)
    requires i < |s|
    ensures match Scan(s, i)
      case EndOfInput => true
      case Token(t, n) =>
        (exists k :: i <= k < n && t == s[k..n]) &&
        ((|t| == 1 && IsToken(t[0])) ||
         IsStringToken(t) ||
         (IsSymbolToken(t) && n < |s| && IsSeparator(s[n])))
    decreases |s| - i
  {
    var c := s[i];
    if IsToken(c) {
      assert Scan(s, i) == Token([c], i + 1);
      assert s[i..i + 1] == [c];
    } else if IsWhitespace(c) {
      var j := SkipWhitespace(s, i + 1);
      if j < |s| {
        ScanShape(s, j);
      }
    } else if c == '"' {
      var j := FindChar(s, i + 1, '"');
      if j < |s| {
        var t := s[i..j + 1];
        assert forall k :: 0 < k < |t| - 1 ==> t[k] == s[i + k];
        assert IsStringToken(t);
      }
    } else if c == ';' {
      var j := FindChar(s, i + 1, '\n');
      if j < |s| {
        ScanShape(s, j);
      }
    } else {
      var j := FindSeparator(s, i + 1);
      if j < |s| {
        var t := s[i..j];
        assert forall k :: 0 < k < |t| ==> t[k] == s[i + k];
        assert IsSymbolToken(t);
      }
    }
  }

  /** Whitespace in front of a token does not change it. */
  lemma LeadingWhitespace(s: string, i: nat)
    requires i < |s| && IsWhitespace(s[i])
    ensures NextToken(s, i) == NextToken(s, i + 1)
  {
  }

  /** A comment runs to the end of its line; with no newline after it,
      the input ends there. */
  lemma CommentSkipped(s: string, i: nat)
    requires i < |s| && s[i] == ';'
    ensures var j := FindChar(s, i + 1, '\n');
      NextToken(s, i) == if j == |s| then EndOfInput else NextToken(s, j + 1)
  {
    var j := FindChar(s, i + 1, '\n');
    if j < |s| {
      LeadingWhitespace(s, j);
    }
  }

  /** A string literal without its closing quote is not returned, whatever
      runes it holds: the reader reports the end of input instead. */
  lemma UnterminatedString(s: string, i: nat)
    requires i < |s| && s[i] == '"'
    requires forall k :: i < k < |s| ==> s[k] != '"'
    ensures NextToken(s, i) == EndOfInput
  {
    assert FindChar(s, i + 1, '"') == |s|;
  }

  /** A symbol that runs to the end of the input is not returned either,
      even when it holds a quote after its first rune. */
  lemma UnterminatedSymbol(s: string, i: nat)
    requires i < |s| && !IsSeparator(s[i]) && s[i] != ';' && s[i] != '"'
    requires forall k :: i < k < |s| ==> !IsSeparator(s[k])
    ensures NextToken(s, i) == EndOfInput
  {
  }

  /** `"b c` and `a"b` at the end of the input give no token. */
  lemma UnterminatedSamples()
    ensures NextToken("\"b c", 0) == EndOfInput
    ensures NextToken("a\"b", 0) == EndOfInput
  {
    UnterminatedString("\"b c", 0);
    UnterminatedSymbol("a\"b", 0);
  }

  /** A sample line: a quoted list holding a symbol and a string
      literal, then a comment. */
  const SampleLine := "'(a \"b c\") ; note\n"

  /** A quote in front of a bracket is a token of its own, the comment and
      the line break vanish, and the string literal keeps its space. */
  lemma SampleLineTokens()
    ensures Tokens(SampleLine, 0) == ["'", "(", "a", "\"b c\"", ")"]
  {
    var s := SampleLine;
    assert s[0] == '\'' && s[1] == '(';
    assert NextToken(s, 0) == Token("'", 1) by {
      assert FindSeparator(s, 1) == 1;
      assert s[0..1] == "'";
    }
    assert NextToken(s, 1) == Token("(", 2) by {
      assert Scan(s, 1) == Token([s[1]], 2);
    }
    SampleLineFrom2();
  }

  lemma SampleLineFrom2()
    ensures Tokens(SampleLine, 2) == ["a", "\"b c\"", ")"]
  {
    var s := SampleLine;
    assert s[2] == 'a' && s[3] == ' ';
    assert NextToken(s, 2) == Token("a", 3) by {
      assert FindSeparator(s, 3) == 3;
      assert Scan(s, 2) == Token(s[2..3], 3);
      assert s[2..3] == "a";
    }
    SampleLineFrom3();
  }

  lemma SampleLineFrom3()
    ensures Tokens(SampleLine, 3) == ["\"b c\"", ")"]
  {
    var s := SampleLine;
    assert s[3] == ' ' && s[4] == '"';
    assert NextToken(s, 3) == Scan(s, 4) by {
      assert SkipWhitespace(s, 4) == 4;
    }
    assert s[5] == 'b' && s[6] == ' ' && s[7] == 'c' && s[8] == '"';
    assert FindChar(s, 5, '"') == 8 by {
      assert FindChar(s, 8, '"') == 8;
      assert FindChar(s, 6, '"') == 8;
    }
    assert Scan(s, 4) == Token(s[4..9], 9);
    assert s[4..9] == "\"b c\"";
    SampleLineFrom9();
  }

  lemma SampleLineFrom9()
    ensures Tokens(SampleLine, 9) == [")"]
  {
    var s := SampleLine;
    assert s[9] == ')';
    assert NextToken(s, 9) == Token([s[9]], 10);
    SampleLineFrom10();
  }

  lemma SampleLineFrom10()
    ensures Tokens(SampleLine, 10) == []
  {
    var s := SampleLine;
    assert FindChar(s, 17, '\n') == 17;
    assert FindChar(s, 15, '\n') == 17;
    assert FindChar(s, 13, '\n') == 17;
    assert FindChar(s, 12, '\n') == 17;
    assert Scan(s, 17) == EndOfInput;
  }

  /** The result of ReadToken's helpers: a value, or io.EOF. */
  datatype Read<T> = Ok(value: T) | Eof

  /**
   * A Lexer over a bufio.Reader. The reader's state is the position of the
   * next rune and whether the last operation was a successful ReadRune,
   * the only case in which UnreadRune steps back.
   */
  class Lexer {
    const input: string
    var pos: nat
    var canUnread: bool

    ghost predicate Valid()
      reads this
    {
      pos <= |input|
    }

    /** NewLexer (lexer.go:48-52). */
    constructor (s: string)
      ensures Valid() && input == s && pos == 0 && !canUnread
    {
      input := s;
      pos := 0;
      canUnread := false;
    }

    /** bufio.Reader.ReadRune: the next rune, or io.EOF at the end. */
    method ReadRune() returns (r: Read<char>)
      requires Valid()
      modifies this
      ensures Valid()
      ensures old(pos) < |input| ==>
        r == Ok(input[old(pos)]) && pos == old(pos) + 1 && canUnread
      ensures old(pos) == |input| ==> r == Eof && pos == |input| && !canUnread
    {
      if pos == |input| {
        canUnread := false;
        return Eof;
      }
      r := Ok(input[pos]);
      pos := pos + 1;
      canUnread := true;
    }

    /** bufio.Reader.UnreadRune: steps back over the rune just read, and
        does nothing when the last read failed. */
    method UnreadRune()
      requires Valid()
      modifies this
      ensures Valid() && !canUnread
      ensures pos == if old(canUnread) && old(pos) > 0 then old(pos) - 1 else old(pos)
    {
      if canUnread && pos > 0 {
        pos := pos - 1;
      }
      canUnread := false;
    }

    /** The reader returned what `lx` says and stopped where it says. */
    ghost predicate Yields(r: Read<string>, lx: Lexed)
      reads this
    {
      match lx
      case Token(t, n) => r == Ok(t) && pos == n
      case EndOfInput => r == Eof && pos == |input|
    }

    /** ReadToken (lexer.go:54-90). */
    method ReadToken() returns (r: Read<string>)
      requires Valid()
      modifies this
      ensures Valid() && Yields(r, NextToken(input, old(pos)))
    {
      var c := ReadRune();
      if c.Eof? {
        return Eof;
      }
      var ch := c.value;
      while true
        invariant Valid() && 0 < pos && ch == input[pos - 1]
        invariant Scan(input, pos - 1) == NextToken(input, old(pos))
        decreases |input| - pos
      {
        if IsToken(ch) {
          return Ok([ch]);
        } else if IsWhitespace(ch) {
          var w := DrainWhitespace();
          if w.Eof? {
            return Eof;
          }
          ch := w.value;
        } else if ch == '"' {
          r := ReadStringToken();
          return;
        } else if ch == ';' {
          var w := DrainWhile('\n');
          if w.Eof? {
            return Eof;
          }
          ch := w.value;
        } else {
          r := ReadSymbolToken(ch);
          return;
        }
      }
    }

    /** The string branch of ReadToken, after the opening quote. */
    method ReadStringToken() returns (r: Read<string>)
      requires Valid() && 0 < pos && input[pos - 1] == '"'
      modifies this
      ensures Valid() && Yields(r, Scan(input, old(pos) - 1))
    {
      var s := ReadWhile('"');
      if s.Eof? {
        return Eof;
      }
      assert input[old(pos) - 1..pos] == ['"'] + s.value + ['"'];
      return Ok("\"" + s.value + "\"");
    }

    /** The symbol branch of ReadToken, after its first rune `ch`. */
    method ReadSymbolToken(ch: char) returns (r: Read<string>)
      requires Valid() && 0 < pos && input[pos - 1] == ch
      requires !IsToken(ch) && !IsWhitespace(ch) && ch != '"' && ch != ';'
      modifies this
      ensures Valid() && Yields(r, Scan(input, old(pos) - 1))
    {
      var t := ReadSymbolRest();
      if t.Eof? {
        return Eof;
      }
      assert input[old(pos) - 1..pos] == [ch] + t.value;
      return Ok([ch] + t.value);
    }

    /** readToken (lexer.go:92-106): the rest of a symbol, up to a
        separator, which is pushed back. */
    method ReadSymbolRest() returns (r: Read<string>)
      requires Valid()
      modifies this
      ensures Valid() && !canUnread
      ensures var j := FindSeparator(input, old(pos));
        if j == |input| then r == Eof && pos == |input|
        else r == Ok(input[old(pos)..j]) && pos == j
    {
      var res := "";
      while true
        invariant Valid() && old(pos) <= pos
        invariant FindSeparator(input, pos) == FindSeparator(input, old(pos))
        invariant res == input[old(pos)..pos]
        decreases |input| - pos
      {
        var c := ReadRune();
        if c.Eof? {
          r := Eof;
          break;
        }
        if IsSeparator(c.value) {
          r := Ok(res);
          break;
        }
        res := res + [c.value];
      }
      UnreadRune();
    }

    /** readWhile (lexer.go:108-121): the runes before the next `cr`,
        which is consumed. */
    method ReadWhile(cr: char) returns (r: Read<string>)
      requires Valid()
      modifies this
      ensures Valid()
      ensures var j := FindChar(input, old(pos), cr);
        if j == |input| then r == Eof && pos == |input|
        else r == Ok(input[old(pos)..j]) && pos == j + 1
    {
      var res := "";
      while true
        invariant Valid() && old(pos) <= pos
        invariant FindChar(input, pos, cr) == FindChar(input, old(pos), cr)
        invariant res == input[old(pos)..pos]
        decreases |input| - pos
      {
        var c := ReadRune();
        if c.Eof? {
          return Eof;
        }
        if c.value == cr {
          return Ok(res);
        }
        res := res + [c.value];
      }
    }

    /** drainWhile (lexer.go:123-134): skips to the next `t` and returns it. */
    method DrainWhile(t: char) returns (r: Read<char>)
      requires Valid()
      modifies this
      ensures Valid()
      ensures var j := FindChar(input, old(pos), t);
        if j == |input| then r == Eof && pos == |input|
        else r == Ok(t) && pos == j + 1
    {
      while true
        invariant Valid() && old(pos) <= pos
        invariant FindChar(input, pos, t) == FindChar(input, old(pos), t)
        decreases |input| - pos
      {
        var c := ReadRune();
        if c.Eof? {
          return Eof;
        }
        if c.value == t {
          return c;
        }
      }
    }

    /** drainWhitespace (lexer.go:136-147): skips whitespace and returns
        the first other rune. */
    method DrainWhitespace() returns (r: Read<char>)
      requires Valid()
      modifies this
      ensures Valid()
      ensures var j := SkipWhitespace(input, old(pos));
        if j == |input| then r == Eof && pos == |input|
        else r == Ok(input[j]) && pos == j + 1
    {
      while true
        invariant Valid() && old(pos) <= pos
        invariant SkipWhitespace(input, pos) == SkipWhitespace(input, old(pos))
        decreases |input| - pos
      {
        var c := ReadRune();
        if c.Eof? {
          return Eof;
        }
        if !IsWhitespace(c.value) {
          return c;
        }
      }
    }

    /** Reading tokens until the end of input yields exactly `Tokens`. */
    method ReadAll() returns (ts: seq<string>)
      requires Valid()
      modifies this
      ensures ts == Tokens(input, old(pos)) && pos == |input|
    {
      ts := [];
      while true
        invariant Valid()
        invariant ts + Tokens(input, pos) == Tokens(input, old(pos))
        decreases |input| - pos
      {
        var t := ReadToken();
        if t.Eof? {
          return;
        }
        ts := ts + [t.value];
      }
    }
  }
}
