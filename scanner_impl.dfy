/**
 * The lexer as the Java class has it: a cursor over the source text that
 * `advance`, `match` and the sub-scanners move forward while `addToken`
 * appends to the token list. Each method is proved to leave the fields as the
 * matching function of `Scanning` describes, so every lemma about those
 * functions holds of this class. A `NumberFormatException` from
 * `Integer.parseInt` is returned as `Some(message)` and ends the scan.
 */
module ScannerImpl {
  import opened Wrappers
  import opened JavaInt
  import opened Values
  import opened Tokens
  import opened Scanning

  class Scanner {
    const source: string
    var tokens: seq<Token>
    var start: nat
    var current: nat
    var line: int

    /** The fields `Scanning` describes. */
    function State(): ScanState
      reads this
    {
      ScanState(tokens, current, line)
    }

    /** The state when the token being scanned began. */
    function Began(): ScanState
      reads this
    {
      ScanState(tokens, start, line)
    }

    constructor(source: string)
      ensures this.source == source && State() == Initial && start == 0
    {
      this.source := source;
      tokens := [];
      start := 0;
      current := 0;
      line := 1;
    }

    predicate IsAtEnd()
      reads this
    {
      current >= |source|
    }

    function Peek(): char
      reads this
    {
      CharAt(source, current)
    }

    function PeekNext(): char
      reads this
    {
      CharAt(source, current + 1)
    }

    method Advance() returns (c: char)
      requires current < |source|
      modifies this
      ensures c == source[old(current)] && current == old(current) + 1
      ensures tokens == old(tokens) && start == old(start) && line == old(line)
    {
      c := source[current];
      current := current + 1;
    }

    /** `match`: consume `expected` if it is the next character. */
    method Match(expected: char) returns (matched: bool)
      modifies this
      ensures matched <==> old(current) < |source| && source[old(current)] == expected
      ensures current == old(current) + (if matched then 1 else 0)
      ensures tokens == old(tokens) && start == old(start) && line == old(line)
    {
      if current >= |source| {
        return false;
      }
      if source[current] != expected {
        return false;
      }
      current := current + 1;
      matched := true;
    }

    /** `addToken`: the text from `start` to `current`, on the current line, at column `start`. */
    method AddToken(kind: TokenType, literal: Value)
      requires start < current <= |source| && kind != Eof
      modifies this
      ensures State() == Scanning.AddToken(source, old(Began()), old(current), kind, literal)
      ensures start == old(start)
    {
      tokens := tokens + [Token(kind, source[start..current], literal, line, start)];
    }

    /** The loop that skips a line comment, up to the line feed. */
    method SkipLine()
      requires current <= |source|
      modifies this
      ensures current == SkipTo(source, old(current), '\n')
      ensures tokens == old(tokens) && start == old(start) && line == old(line)
    {
      ghost var from := current;
      while Peek() != '\n' && !IsAtEnd()
        invariant from <= current <= |source|
        invariant SkipTo(source, current, '\n') == SkipTo(source, from, '\n')
        invariant tokens == old(tokens) && start == old(start) && line == old(line)
        decreases |source| - current
      {
        var _ := Advance();
      }
    }

    /** The loop that skips a block comment, up to the closing star-slash pair. */
    method SkipComment()
      requires current <= |source|
      modifies this
      ensures current == CommentEnd(source, old(current))
      ensures tokens == old(tokens) && start == old(start) && line == old(line)
    {
      ghost var from := current;
      while !(Peek() == '*' && PeekNext() == '/') && !IsAtEnd()
        invariant from <= current <= |source|
        invariant CommentEnd(source, current) == CommentEnd(source, from)
        invariant tokens == old(tokens) && start == old(start) && line == old(line)
        decreases |source| - current
      {
        var _ := Advance();
      }
    }

    /** The `/` case: a line comment, a block comment or a slash. */
    method Slash()
      requires start + 1 == current <= |source| && source[start] == '/'
      modifies this
      ensures State() == ScanSlash(source, old(Began())) && start == old(start)
    {
      var matched := Match('/');
      if matched {
        SkipLine();
        return;
      }
      matched := Match('*');
      if matched {
        SkipComment();
        if !IsAtEnd() {
          var _ := Advance();
          var _ := Advance();
        }
        return;
      }
      AddToken(Tokens.Slash, Nil);
    }

    /** `identifier()`: letters, digits and `_`, then a keyword lookup. */
    method Identifier()
      requires start + 1 == current <= |source|
      modifies this
      ensures State() == ScanIdentifier(source, old(Began())) && start == old(start)
    {
      IdentChars();
      var text := source[start..current];
      if text in Keywords {
        AddToken(Keywords[text], Nil);
      } else {
        AddToken(Tokens.Identifier, Nil);
      }
    }

    /** The `while (isLetterOrDigit(peek()) || peek() == '_') advance();` loop of `identifier()`. */
    method IdentChars()
      requires current <= |source|
      modifies this
      ensures current == IdentEnd(source, old(current))
      ensures tokens == old(tokens) && start == old(start) && line == old(line)
    {
      while IsIdentChar(Peek())
        invariant old(current) <= current <= |source|
        invariant IdentEnd(source, current) == IdentEnd(source, old(current))
        invariant tokens == old(tokens) && start == old(start) && line == old(line)
        decreases |source| - current
      {
        var _ := Advance();
      }
    }

    /** The `while (isDigit(peek())) advance();` loop of `number()`. */
    method Digits()
      requires current <= |source|
      modifies this
      ensures current == DigitsEnd(source, old(current))
      ensures tokens == old(tokens) && start == old(start) && line == old(line)
    {
      while IsDigit(Peek())
        invariant old(current) <= current <= |source|
        invariant DigitsEnd(source, current) == DigitsEnd(source, old(current))
        invariant tokens == old(tokens) && start == old(start) && line == old(line)
        decreases |source| - current
      {
        var _ := Advance();
      }
    }

    /** `number()`: digits, then a fraction only if a digit follows the dot. */
    method Number() returns (failure: Option<string>)
      requires start + 1 == current <= |source|
      modifies this
      ensures var r := ScanNumber(source, old(Began()));
              && (failure.Some? <==> r.Err?)
              && (r.Err? ==> failure.value == r.message)
              && (r.Ok? ==> State() == r.value)
    {
      Digits();
      if Peek() == '.' && IsDigit(PeekNext()) {
        var _ := Advance();
        Digits();
      }
      assert current == NumberEnd(source, start + 1);
      var text := source[start..current];
      if '.' in text {
        AddToken(Tokens.Number, Float(text));
        return None;
      }
      match ParseInt(text)
      case Some(v) =>
        AddToken(Tokens.Number, Int(v));
        return None;
      case None =>
        return Some("NumberFormatException: " + text);
    }

    /** The loop of `string()`: up to the closing quote, counting line feeds. */
    method StringBody()
      requires current <= |source|
      modifies this
      ensures current == SkipTo(source, old(current), '"')
      ensures line == old(line) + Newlines(source[old(current)..current])
      ensures tokens == old(tokens) && start == old(start)
    {
      ghost var from := current;
      while Peek() != '"' && !IsAtEnd()
        invariant from <= current <= |source|
        invariant SkipTo(source, current, '"') == SkipTo(source, from, '"')
        invariant line == old(line) + Newlines(source[from..current])
        invariant tokens == old(tokens) && start == old(start)
        decreases |source| - current
      {
        assert source[from..current + 1][..current - from] == source[from..current];
        if Peek() == '\n' {
          line := line + 1;
        }
        var _ := Advance();
      }
    }

    /** `string()`: every line feed inside counts; an unterminated string adds nothing. */
    method StringLit()
      requires start + 1 == current <= |source|
      modifies this
      ensures State() == ScanString(source, old(Began())) && start == old(start)
    {
      StringBody();
      if IsAtEnd() {
        return;
      }
      var _ := Advance();
      AddToken(Tokens.String, Str(source[start + 1..current - 1]));
    }

    /** `scanToken`: one character's worth of the switch. */
    method ScanToken() returns (failure: Option<string>)
      requires start == current < |source|
      modifies this
      ensures var r := Scanning.ScanToken(source, old(State()));
              && (failure.Some? <==> r.Err?)
              && (r.Err? ==> failure.value == r.message)
              && (r.Ok? ==> State() == r.value)
    {
      var c := Advance();
      failure := None;
      if c == ' ' || c == '\r' || c == '\t' {
      } else if c == '\n' {
        line := line + 1;
      } else if c == '/' {
        Slash();
      } else if SingleKind(c).Some? {
        AddToken(SingleKind(c).value, Nil);
      } else if EitherKinds(c).Some? {
        var (second, pair, single) := EitherKinds(c).value;
        var m := Match(second);
        AddToken(if m then pair else single, Nil);
      } else {
        failure := ScanOther(c);
      }
    }

    /** The rest of `scanToken`'s switch, after the character `c` has been consumed. */
    method ScanOther(c: char) returns (failure: Option<string>)
      requires start + 1 == current <= |source| && c == source[start]
      modifies this
      ensures var r := Scanning.ScanOther(source, old(Began()));
              && (failure.Some? <==> r.Err?)
              && (r.Err? ==> failure.value == r.message)
              && (r.Ok? ==> State() == r.value)
    {
      failure := None;
      if c == '"' {
        StringLit();
      } else if c == '&' || c == '|' {
        var m := Match(c);
        if m {
          AddToken(if c == '&' then And else Or, Nil);
        }
      } else if IsAlpha(c) {
        Identifier();
      } else if IsDigit(c) {
        failure := Number();
      }
    }

    /** `scanTokens`: scan until the cursor reaches the end, then add `EOF`. */
    method ScanTokens() returns (r: Result<seq<Token>>)
      requires current <= |source|
      modifies this
      ensures r == ScanAll(source, old(State()))
      ensures r.Ok? ==> tokens == r.value
    {
      while !IsAtEnd()
        invariant current <= |source|
        invariant ScanAll(source, old(State())) == ScanAll(source, State())
        decreases |source| - current
      {
        start := current;
        var failure := ScanToken();
        if failure.Some? {
          return Err(failure.value);
        }
      }
      tokens := tokens + [Token(Eof, "", Nil, line, current)];
      r := Ok(tokens);
    }
  }
}
