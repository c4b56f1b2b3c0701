/**
 * The lexer, as functions over the source text and the scanner's cursor
 * state. `ScanState` holds the fields the Java class updates (`tokens`,
 * `current`, `line`); `start` is the cursor value when the current token
 * began and is passed explicitly. Letters are ASCII letters.
 *
 * The only way `scanTokens` fails is an integer literal that does not fit in
 * 32 bits (`Integer.parseInt` throws); every other problem is reported on
 * stderr, which is not modelled, and skipped.
 */
module Scanning {
  import opened Wrappers
  import opened JavaInt
  import opened Values
  import opened Tokens

  /** `Character.isLetter`, restricted to ASCII. */
  predicate IsAlpha(c: char) { 'a' <= c <= 'z' || 'A' <= c <= 'Z' }

  /** What may follow the first letter of an identifier. */
  predicate IsIdentChar(c: char) { IsAlpha(c) || IsDigit(c) || c == '_' }

  /** The reserved words; matching is exact and case-sensitive. */
  const Keywords: map<string, TokenType> := map[
    "VAR" := KwVar, "FUNCAO" := KwFun, "RETORNA" := KwReturn, "ESCREVEAI" := KwPrint,
    "FAZAVOLTA" := KwFor, "VOLTAINFINITA" := KwWhile, "INTEIRO" := KwInt, "QUEBRADO" := KwFloat,
    "SE" := KwIf, "SENAO" := KwElse, "ISSOAI" := KwTrue, "MENTIRA" := KwFalse, "NULO" := KwNil,
    "ESCOLHEAI" := KwSwitch, "CASO" := KwCase, "PADRAO" := KwDefault, "LEIA" := KwInput,
    "PAREI" := KwBreak]

  /** The kind of an identifier-shaped word: the keyword's kind, or `IDENTIFIER`; no keyword scans as an identifier. */
  function WordKind(text: string): (k: TokenType)
    ensures k == Identifier <==> text !in Keywords
    ensures k != Eof
  {
    if text in Keywords then Keywords[text] else Identifier
  }

  /** The two-character operators and what each scans to. */
  const Pairs: map<(char, char), TokenType> := map[
    ('=', '=') := EqualEqual, ('!', '=') := BangEqual, ('>', '=') := GreaterEqual, ('<', '=') := LessEqual,
    ('+', '+') := Incremento, ('-', '-') := Decremento, ('&', '&') := And, ('|', '|') := Or]

  /** The scanner's mutable fields other than `start`. */
  datatype ScanState = ScanState(tokens: seq<Token>, current: nat, line: int)

  const Initial: ScanState := ScanState([], 0, 1)

  /** `peek`: the character at `i`, or `'\0'` past the end. */
  function CharAt(source: string, i: nat): char
  {
    if i < |source| then source[i] else '\0'
  }

  /** The number of line feeds in `s`. */
  function Newlines(s: string): nat
  {
    if s == [] then 0 else Newlines(s[..|s| - 1]) + (if s[|s| - 1] == '\n' then 1 else 0)
  }

  /** How far a run of identifier characters starting at `i` reaches. */
  function IdentEnd(source: string, i: nat): (r: nat)
    requires i <= |source|
    ensures i <= r <= |source| && !IsIdentChar(CharAt(source, r))
    ensures forall k :: i <= k < r ==> IsIdentChar(source[k])
    decreases |source| - i
  {
    if IsIdentChar(CharAt(source, i)) then IdentEnd(source, i + 1) else i
  }

  /** How far a run of decimal digits starting at `i` reaches. */
  function DigitsEnd(source: string, i: nat): (r: nat)
    requires i <= |source|
    ensures i <= r <= |source| && !IsDigit(CharAt(source, r))
    ensures forall k :: i <= k < r ==> IsDigit(source[k])
    decreases |source| - i
  {
    if IsDigit(CharAt(source, i)) then DigitsEnd(source, i + 1) else i
  }

  /** The end of a number whose first digit precedes `i`: digits, then `.digits` if a digit follows the dot. */
  function NumberEnd(source: string, i: nat): (r: nat)
    requires i <= |source|
    ensures i <= r <= |source|
  {
    var e := DigitsEnd(source, i);
    if CharAt(source, e) == '.' && IsDigit(CharAt(source, e + 1)) then DigitsEnd(source, e + 1) else e
  }

  /**
   * The first `c` at or after `i`, or the end of the source: where a `//`
   * comment stops (`c` a line feed) and where a string's text stops (`c` a
   * double quote).
   */
  function SkipTo(source: string, i: nat, c: char): (r: nat)
    requires i <= |source|
    ensures i <= r <= |source| && (r < |source| ==> source[r] == c)
    ensures forall k :: i <= k < r ==> source[k] != c
    decreases |source| - i
  {
    if CharAt(source, i) != c && i < |source| then SkipTo(source, i + 1, c) else i
  }

  /** The first star-slash pair at or after `i`, or the end of the source. */
  function CommentEnd(source: string, i: nat): (r: nat)
    requires i <= |source|
    ensures i <= r <= |source|
    ensures r < |source| ==> r + 1 < |source| && source[r] == '*' && source[r + 1] == '/'
    decreases |source| - i
  {
    if !(CharAt(source, i) == '*' && CharAt(source, i + 1) == '/') && i < |source| then CommentEnd(source, i + 1)
    else i
  }

  /**
   * `addToken`, for the token that began at `st.current` and ends at `end`:
   * the lexeme is the text in between and the column is where it began.
   */
  function AddToken(source: string, st: ScanState, end: nat, kind: TokenType, literal: Value): (r: ScanState)
    requires st.current < end <= |source| && kind != Eof
    ensures r.current == end && r.line == st.line
  {
    ScanState(st.tokens + [Token(kind, source[st.current..end], literal, st.line, st.current)], end, st.line)
  }

  /** The characters that always form a token on their own. */
  function SingleKind(c: char): (k: Option<TokenType>)
    ensures k.Some? ==> k.value != Eof
    ensures k.Some? <==> c in {':', '(', ')', '{', '}', '[', ']', ',', ';', '*', '%'}
  {
    match c
    case ':' => Some(Colon)
    case '(' => Some(LeftParen)
    case ')' => Some(RightParen)
    case '{' => Some(LeftBrace)
    case '}' => Some(RightBrace)
    case '[' => Some(LeftBracket)
    case ']' => Some(RightBracket)
    case ',' => Some(Comma)
    case ';' => Some(Semicolon)
    case '*' => Some(Star)
    case '%' => Some(Percent)
    case _ => None
  }

  /**
   * The characters scanned as `addToken(match(second) ? pair : single)`:
   * the second character to look for, the pair's kind, the single's kind.
   */
  function EitherKinds(c: char): (k: Option<(char, TokenType, TokenType)>)
    ensures k.Some? ==> k.value.1 != Eof && k.value.2 != Eof
    ensures k.Some? ==> (c, k.value.0) in Pairs && Pairs[(c, k.value.0)] == k.value.1
    ensures k.Some? <==> c in {'=', '!', '+', '-', '>', '<'}
  {
    match c
    case '=' => Some(('=', EqualEqual, Equal))
    case '!' => Some(('=', BangEqual, Bang))
    case '+' => Some(('+', Incremento, Plus))
    case '-' => Some(('-', Decremento, Minus))
    case '>' => Some(('=', GreaterEqual, Greater))
    case '<' => Some(('=', LessEqual, Less))
    case _ => None
  }

  /** `/`: a line comment up to (not including) the line feed, a block comment, or a slash token. */
  function ScanSlash(source: string, st: ScanState): (r: ScanState)
    requires st.current < |source| && source[st.current] == '/'
    ensures st.current < r.current <= |source| && r.line == st.line
  {
    var start := st.current;
    if CharAt(source, start + 1) == '/' then st.(current := SkipTo(source, start + 2, '\n'))
    else if CharAt(source, start + 1) == '*' then
      var e := CommentEnd(source, start + 2);
      st.(current := if e < |source| then e + 2 else e)
    else AddToken(source, st, start + 1, Slash, Nil)
  }

  /** `&&` and `||`; a lone `&` or `|` is reported and skipped. */
  function ScanDoubled(source: string, st: ScanState, kind: TokenType): (r: ScanState)
    requires st.current < |source| && source[st.current] in {'&', '|'} && kind != Eof
    ensures st.current < r.current <= |source| && r.line == st.line
  {
    if CharAt(source, st.current + 1) == source[st.current] then AddToken(source, st, st.current + 2, kind, Nil)
    else st.(current := st.current + 1)
  }

  /** `identifier()`: the word runs to the first character that is not a letter, digit or `_`. */
  function ScanIdentifier(source: string, st: ScanState): (r: ScanState)
    requires st.current < |source|
    ensures st.current < r.current <= |source| && r.line == st.line
  {
    var e := IdentEnd(source, st.current + 1);
    AddToken(source, st, e, WordKind(source[st.current..e]), Nil)
  }

  /** `number()`; fails where `Integer.parseInt` overflows. */
  function ScanNumber(source: string, st: ScanState): (r: Result<ScanState>)
    requires st.current < |source|
    ensures r.Ok? ==> st.current < r.value.current <= |source| && r.value.line == st.line
  {
    var e := NumberEnd(source, st.current + 1);
    var text := source[st.current..e];
    if '.' in text then Ok(AddToken(source, st, e, Number, Float(text)))
    else
      match ParseInt(text)
      case Some(v) => Ok(AddToken(source, st, e, Number, Int(v)))
      case None => Err("NumberFormatException: " + text)
  }

  /**
   * `string()`: every line feed before the closing quote counts, and the
   * token carries the line of the closing quote; an unterminated string adds
   * no token.
   */
  function ScanString(source: string, st: ScanState): (r: ScanState)
    requires st.current < |source|
    ensures st.current < r.current <= |source| && st.line <= r.line
  {
    var e := SkipTo(source, st.current + 1, '"');
    var line := st.line + Newlines(source[st.current + 1..e]);
    if e == |source| then st.(current := e, line := line)
    else AddToken(source, st.(line := line), e + 1, String, Str(source[st.current + 1..e]))
  }

  /** `scanToken`: one step of the lexer from `st.current`, which is also `start`. */
  function ScanToken(source: string, st: ScanState): (r: Result<ScanState>)
    requires st.current < |source|
    ensures r.Ok? ==> st.current < r.value.current <= |source| && st.line <= r.value.line
  {
    var c := source[st.current];
    if c == ' ' || c == '\r' || c == '\t' then Ok(st.(current := st.current + 1))
    else if c == '\n' then Ok(st.(current := st.current + 1, line := st.line + 1))
    else if c == '/' then Ok(ScanSlash(source, st))
    else if SingleKind(c).Some? then Ok(AddToken(source, st, st.current + 1, SingleKind(c).value, Nil))
    else if EitherKinds(c).Some? then
      var (second, pair, single) := EitherKinds(c).value;
      if CharAt(source, st.current + 1) == second then Ok(AddToken(source, st, st.current + 2, pair, Nil))
      else Ok(AddToken(source, st, st.current + 1, single, Nil))
    else ScanOther(source, st)
  }

  /** The rest of the switch: strings, `&&` and `||`, words, numbers, and any other character, which is skipped. */
  function ScanOther(source: string, st: ScanState): (r: Result<ScanState>)
    requires st.current < |source|
    ensures r.Ok? ==> st.current < r.value.current <= |source| && st.line <= r.value.line
  {
    var c := source[st.current];
    if c == '"' then Ok(ScanString(source, st))
    else if c == '&' then Ok(ScanDoubled(source, st, And))
    else if c == '|' then Ok(ScanDoubled(source, st, Or))
    else if IsAlpha(c) then Ok(ScanIdentifier(source, st))
    else if IsDigit(c) then ScanNumber(source, st)
    else Ok(st.(current := st.current + 1))
  }

  /** A token whose lexeme is the source text at its column. */
  predicate FromSource(source: string, t: Token)
  {
    0 <= t.column && t.column + |t.lexeme| <= |source| && source[t.column..t.column + |t.lexeme|] == t.lexeme
  }

  /**
   * One step adds at most one token: it starts where the step started, it is
   * the source text there, it ends by the new cursor, it is not `EOF`, and it
   * carries the line the scanner is on after the step.
   */
  predicate Grows(source: string, st: ScanState, st2: ScanState)
  {
    (st2.tokens == st.tokens ||
     (|st2.tokens| == |st.tokens| + 1 && st2.tokens[..|st.tokens|] == st.tokens &&
      var t := st2.tokens[|st.tokens|];
      t.kind != Eof && t.column == st.current && FromSource(source, t) &&
      t.column + |t.lexeme| <= st2.current && t.line == st2.line))
  }

  /** The loop of `scanTokens`: scan tokens until the cursor reaches the end. */
  function ScanFrom(source: string, st: ScanState): (r: Result<ScanState>)
    requires st.current <= |source|
    ensures r.Ok? ==> r.value.current == |source|
    decreases |source| - st.current
  {
    if st.current >= |source| then Ok(st)
    else
      var st1 :- ScanToken(source, st);
      ScanFrom(source, st1)
  }

  /** `scanTokens` from a given state: the loop, then an `EOF` token at the final line and cursor. */
  function ScanAll(source: string, st: ScanState): (r: Result<seq<Token>>)
    requires st.current <= |source|
  {
    var last :- ScanFrom(source, st);
    Ok(last.tokens + [Token(Eof, "", Nil, last.line, last.current)])
  }

  /** `new Scanner(source).scanTokens()`. */
  function ScanTokens(source: string): Result<seq<Token>>
  {
    ScanAll(source, Initial)
  }

  /**
   * What holds of the tokens at every point of the loop: each is the source
   * text at its column, none is `EOF`, they appear in source order without
   * overlapping, and their lines never decrease.
   */
  predicate Sound(source: string, st: ScanState)
  {
    st.current <= |source| && 1 <= st.line &&
    (forall i :: 0 <= i < |st.tokens| ==>
      st.tokens[i].kind != Eof && FromSource(source, st.tokens[i]) &&
      st.tokens[i].column + |st.tokens[i].lexeme| <= st.current && 1 <= st.tokens[i].line <= st.line) &&
    (forall i :: 0 <= i < |st.tokens| - 1 ==>
      st.tokens[i].column + |st.tokens[i].lexeme| <= st.tokens[i + 1].column &&
      st.tokens[i].line <= st.tokens[i + 1].line)
  }

  lemma AddTokenGrows(source: string, st: ScanState, end: nat, kind: TokenType, literal: Value)
    requires st.current < end <= |source| && kind != Eof
    ensures Grows(source, st, AddToken(source, st, end, kind, literal))
  {
    var r := AddToken(source, st, end, kind, literal);
    assert r.tokens[..|st.tokens|] == st.tokens;
  }

  /** Which sub-scanner a character leads to; each is one branch of `scanToken`'s switch. */
  lemma SlashDispatch(source: string, st: ScanState)
    requires st.current < |source| && source[st.current] == '/'
    ensures ScanToken(source, st) == Ok(ScanSlash(source, st))
  {
  }

  lemma StringDispatch(source: string, st: ScanState)
    requires st.current < |source| && source[st.current] == '"'
    ensures ScanToken(source, st) == Ok(ScanString(source, st))
  {
  }

  lemma IdentifierDispatch(source: string, st: ScanState)
    requires st.current < |source| && IsAlpha(source[st.current])
    ensures ScanToken(source, st) == Ok(ScanIdentifier(source, st))
  {
  }

  lemma NumberDispatch(source: string, st: ScanState)
    requires st.current < |source| && IsDigit(source[st.current])
    ensures ScanToken(source, st) == ScanNumber(source, st)
  {
  }

  /** A character that is a token on its own. */
  lemma SingleDispatch(source: string, st: ScanState)
    requires st.current < |source| && SingleKind(source[st.current]).Some?
    ensures ScanToken(source, st) == Ok(AddToken(source, st, st.current + 1, SingleKind(source[st.current]).value, Nil))
  {
  }

  /** A character that is a token on its own or, with the right successor, part of a pair. */
  lemma EitherDispatch(source: string, st: ScanState)
    requires st.current < |source| && EitherKinds(source[st.current]).Some?
    ensures var (second, pair, single) := EitherKinds(source[st.current]).value;
            ScanToken(source, st) ==
              if CharAt(source, st.current + 1) == second then Ok(AddToken(source, st, st.current + 2, pair, Nil))
              else Ok(AddToken(source, st, st.current + 1, single, Nil))
  {
  }

  /** `&` and `|`. */
  lemma DoubledDispatch(source: string, st: ScanState)
    requires st.current < |source| && source[st.current] in {'&', '|'}
    ensures ScanToken(source, st) == Ok(ScanDoubled(source, st, if source[st.current] == '&' then And else Or))
  {
  }

  /** Blanks, line feeds and characters outside the language. */
  lemma SkipDispatch(source: string, st: ScanState)
    requires st.current < |source|
    requires var c := source[st.current]; c in {' ', '\r', '\t', '\n'} || Invalid(c)
    ensures ScanToken(source, st) == Ok(st.(current := st.current + 1, line := st.line + if source[st.current] == '\n' then 1 else 0))
  {
  }

  lemma SlashGrows(source: string, st: ScanState)
    requires st.current < |source| && source[st.current] == '/'
    ensures Grows(source, st, ScanSlash(source, st))
  {
    if ScanSlash(source, st).tokens != st.tokens {
      AddTokenGrows(source, st, st.current + 1, Slash, Nil);
    }
  }

  lemma StringGrows(source: string, st: ScanState)
    requires st.current < |source|
    ensures Grows(source, st, ScanString(source, st))
  {
    var e := SkipTo(source, st.current + 1, '"');
    if e < |source| {
      AddTokenGrows(source, st.(line := st.line + Newlines(source[st.current + 1..e])), e + 1, String, Str(source[st.current + 1..e]));
    }
  }

  lemma IdentifierGrows(source: string, st: ScanState)
    requires st.current < |source|
    ensures Grows(source, st, ScanIdentifier(source, st))
  {
    var e := IdentEnd(source, st.current + 1);
    AddTokenGrows(source, st, e, WordKind(source[st.current..e]), Nil);
  }

  lemma NumberGrows(source: string, st: ScanState)
    requires st.current < |source| && ScanNumber(source, st).Ok?
    ensures Grows(source, st, ScanNumber(source, st).value)
  {
    var e := NumberEnd(source, st.current + 1);
    var text := source[st.current..e];
    AddTokenGrows(source, st, e, Number, if '.' in text then Float(text) else Int(ParseInt(text).value));
  }

  /** The steps that add a token of one or two characters. */
  lemma OperatorGrows(source: string, st: ScanState)
    requires st.current < |source| && ScanToken(source, st).Ok?
    requires source[st.current] !in {'/', '"'} && !IsAlpha(source[st.current]) && !IsDigit(source[st.current])
    ensures Grows(source, st, ScanToken(source, st).value)
  {
    var c := source[st.current];
    if SingleKind(c).Some? {
      AddTokenGrows(source, st, st.current + 1, SingleKind(c).value, Nil);
    } else if EitherKinds(c).Some? {
      var (second, pair, single) := EitherKinds(c).value;
      if CharAt(source, st.current + 1) == second {
        AddTokenGrows(source, st, st.current + 2, pair, Nil);
      } else {
        AddTokenGrows(source, st, st.current + 1, single, Nil);
      }
    } else if c == '&' || c == '|' {
      if CharAt(source, st.current + 1) == c {
        AddTokenGrows(source, st, st.current + 2, if c == '&' then And else Or, Nil);
      }
    }
  }

  /** Each step adds at most one token, as `Grows` says. */
  lemma StepGrows(source: string, st: ScanState)
    requires st.current < |source| && ScanToken(source, st).Ok?
    ensures Grows(source, st, ScanToken(source, st).value)
  {
    var c := source[st.current];
    if c == '/' {
      SlashDispatch(source, st);
      SlashGrows(source, st);
    } else if c == '"' {
      StringDispatch(source, st);
      StringGrows(source, st);
    } else if IsAlpha(c) {
      IdentifierDispatch(source, st);
      IdentifierGrows(source, st);
    } else if IsDigit(c) {
      NumberDispatch(source, st);
      NumberGrows(source, st);
    } else {
      OperatorGrows(source, st);
    }
  }

  lemma SoundStep(source: string, st: ScanState)
    requires st.current < |source| && Sound(source, st) && ScanToken(source, st).Ok?
    ensures Sound(source, ScanToken(source, st).value)
  {
    StepGrows(source, st);
    SoundGrows(source, st, ScanToken(source, st).value);
  }

  /** A step that `Grows` the token list and moves forward keeps it `Sound`. */
  lemma SoundGrows(source: string, st: ScanState, st2: ScanState)
    requires Sound(source, st) && Grows(source, st, st2)
    requires st.current <= st2.current <= |source| && st.line <= st2.line
    ensures Sound(source, st2)
  {
    if st2.tokens != st.tokens {
      forall i | 0 <= i < |st2.tokens|
        ensures st2.tokens[i].kind != Eof && FromSource(source, st2.tokens[i])
        ensures st2.tokens[i].column + |st2.tokens[i].lexeme| <= st2.current && 1 <= st2.tokens[i].line <= st2.line
      {
        if i < |st.tokens| {
          assert st2.tokens[i] == st.tokens[i];
        }
      }
      forall i | 0 <= i < |st2.tokens| - 1
        ensures st2.tokens[i].column + |st2.tokens[i].lexeme| <= st2.tokens[i + 1].column
        ensures st2.tokens[i].line <= st2.tokens[i + 1].line
      {
        assert st2.tokens[i] == st.tokens[i];
        if i + 1 < |st.tokens| {
          assert st2.tokens[i + 1] == st.tokens[i + 1];
        }
      }
    }
  }

  lemma {:induction false} SoundFrom(source: string, st: ScanState)
    requires Sound(source, st) && ScanFrom(source, st).Ok?
    ensures Sound(source, ScanFrom(source, st).value)
    decreases |source| - st.current
  {
    if st.current < |source| {
      SoundStep(source, st);
      SoundFrom(source, ScanToken(source, st).value);
    }
  }

  /**
   * The token list of a successful scan: exactly one `EOF`, last, with an
   * empty lexeme at the end of the source; every token is the source text at
   * its column; tokens come in source order without overlapping, on
   * non-decreasing lines.
   */
  lemma ScanTokensShape(source: string)
    requires ScanTokens(source).Ok?
    ensures var ts := ScanTokens(source).value;
            && |ts| >= 1 && ts[|ts| - 1].kind == Eof && ts[|ts| - 1].lexeme == "" && ts[|ts| - 1].column == |source|
            && (forall i :: 0 <= i < |ts| - 1 ==> ts[i].kind != Eof)
            && (forall i :: 0 <= i < |ts| ==> FromSource(source, ts[i]))
            && (forall i :: 0 <= i < |ts| - 1 ==> ts[i].column + |ts[i].lexeme| <= ts[i + 1].column && ts[i].line <= ts[i + 1].line)
  {
    SoundFrom(source, Initial);
    var last := ScanFrom(source, Initial).value;
    EofShape(source, last);
  }

  /** A sound final state with `EOF` appended has the shape `ScanTokensShape` states. */
  lemma EofShape(source: string, last: ScanState)
    requires Sound(source, last) && last.current == |source|
    ensures var ts := last.tokens + [Token(Eof, "", Nil, last.line, last.current)];
            && |ts| >= 1 && ts[|ts| - 1].kind == Eof && ts[|ts| - 1].lexeme == "" && ts[|ts| - 1].column == |source|
            && (forall i :: 0 <= i < |ts| - 1 ==> ts[i].kind != Eof)
            && (forall i :: 0 <= i < |ts| ==> FromSource(source, ts[i]))
            && (forall i :: 0 <= i < |ts| - 1 ==> ts[i].column + |ts[i].lexeme| <= ts[i + 1].column && ts[i].line <= ts[i + 1].line)
  {
    var ts := last.tokens + [Token(Eof, "", Nil, last.line, last.current)];
    forall i | 0 <= i < |ts|
      ensures FromSource(source, ts[i])
    {
      if i < |last.tokens| {
        assert ts[i] == last.tokens[i];
      }
    }
    forall i | 0 <= i < |ts| - 1
      ensures ts[i].column + |ts[i].lexeme| <= ts[i + 1].column && ts[i].line <= ts[i + 1].line
    {
      assert ts[i] == last.tokens[i];
      if i + 1 < |last.tokens| {
        assert ts[i + 1] == last.tokens[i + 1];
      }
    }
  }

  /** The only failure is an integer literal outside the 32-bit range. */
  lemma FailsOnlyOnOverflow(source: string, st: ScanState)
    requires st.current < |source| && ScanToken(source, st).Err?
    ensures IsDigit(source[st.current])
    ensures var text := source[st.current..NumberEnd(source, st.current + 1)];
            '.' !in text && AllDigits(text) && !InRange(DigitsValue(text))
  {
    var text := source[st.current..NumberEnd(source, st.current + 1)];
    assert forall k :: 0 <= k < |text| ==> text[k] == source[st.current + k];
  }

  /** Two-character operators are taken greedily, as one token. */
  lemma GreedyPairs(source: string, st: ScanState)
    requires st.current + 1 < |source| && (source[st.current], source[st.current + 1]) in Pairs
    ensures ScanToken(source, st) ==
            Ok(ScanState(st.tokens + [Token(Pairs[(source[st.current], source[st.current + 1])], source[st.current..st.current + 2], Nil, st.line, st.current)],
                         st.current + 2, st.line))
  {
    var c := source[st.current];
    if c == '&' || c == '|' {
      DoubledDispatch(source, st);
    } else {
      EitherDispatch(source, st);
    }
  }

  /** A lone `&` or `|` produces no token. */
  lemma LoneAmpersandOrBar(source: string, st: ScanState)
    requires st.current < |source| && source[st.current] in {'&', '|'}
    requires CharAt(source, st.current + 1) != source[st.current]
    ensures ScanToken(source, st) == Ok(st.(current := st.current + 1))
  {
  }

  /** A character that starts no token and is not white space. */
  predicate Invalid(c: char)
  {
    !IsAlpha(c) && !IsDigit(c) && SingleKind(c).None? && EitherKinds(c).None? &&
    c !in {' ', '\r', '\t', '\n', '/', '"', '&', '|'}
  }

  /**
   * Blanks, line feeds, comments and characters outside the language
   * produce no token; only a line feed outside a comment moves to the next line.
   */
  lemma Silent(source: string, st: ScanState)
    requires st.current < |source|
    requires var c := source[st.current];
             c in {' ', '\r', '\t', '\n'} || (c == '/' && CharAt(source, st.current + 1) in {'/', '*'}) || Invalid(c)
    ensures ScanToken(source, st).Ok? && ScanToken(source, st).value.tokens == st.tokens
    ensures ScanToken(source, st).value.line == st.line + (if source[st.current] == '\n' then 1 else 0)
  {
  }

  /** A block comment is skipped whole and does not move the line count, whatever it contains. */
  lemma BlockCommentKeepsLine(source: string, st: ScanState)
    requires st.current + 1 < |source| && source[st.current] == '/' && source[st.current + 1] == '*'
    ensures var r := ScanToken(source, st).value;
            r.tokens == st.tokens && r.line == st.line &&
            var e := CommentEnd(source, st.current + 2);
            r.current == if e < |source| then e + 2 else |source|
  {
    SlashDispatch(source, st);
  }

  /**
   * An identifier starts with a letter and takes every following letter,
   * digit and `_`; it is a keyword exactly when the whole word is one.
   */
  lemma IdentifierToken(source: string, st: ScanState)
    requires st.current < |source| && IsAlpha(source[st.current])
    ensures var e := IdentEnd(source, st.current + 1);
            var word := source[st.current..e];
            && (e == |source| || !IsIdentChar(source[e]))
            && ScanToken(source, st) == Ok(ScanState(st.tokens + [Token(WordKind(word), word, Nil, st.line, st.current)], e, st.line))
  {
    IdentifierDispatch(source, st);
  }

  /** A string token: its lexeme keeps the quotes, its literal drops them, and its line is the closing quote's. */
  lemma StringToken(source: string, st: ScanState)
    requires st.current < |source| && source[st.current] == '"'
    ensures var e := SkipTo(source, st.current + 1, '"');
            var line := st.line + Newlines(source[st.current + 1..e]);
            var r := ScanToken(source, st).value;
            && (e == |source| ==> r == ScanState(st.tokens, e, line))
            && (e < |source| ==>
                  var t := Token(String, source[st.current..e + 1], Str(source[st.current + 1..e]), line, st.current);
                  && r == ScanState(st.tokens + [t], e + 1, line)
                  && t.literal.s == t.lexeme[1..|t.lexeme| - 1])
  {
    StringDispatch(source, st);
    StringScanned(source, st);
  }

  lemma StringScanned(source: string, st: ScanState)
    requires st.current < |source| && source[st.current] == '"'
    ensures var e := SkipTo(source, st.current + 1, '"');
            var line := st.line + Newlines(source[st.current + 1..e]);
            var r := ScanString(source, st);
            && (e == |source| ==> r == ScanState(st.tokens, e, line))
            && (e < |source| ==>
                  var t := Token(String, source[st.current..e + 1], Str(source[st.current + 1..e]), line, st.current);
                  && r == ScanState(st.tokens + [t], e + 1, line)
                  && t.literal.s == t.lexeme[1..|t.lexeme| - 1])
  {
  }

  /** A number with a fraction is a `Double`, one without is an `Integer`. */
  lemma NumberToken(source: string, st: ScanState)
    requires st.current < |source| && IsDigit(source[st.current])
    ensures var e := NumberEnd(source, st.current + 1);
            var text := source[st.current..e];
            && ('.' in text ==> ScanToken(source, st) == Ok(ScanState(st.tokens + [Token(Number, text, Float(text), st.line, st.current)], e, st.line)))
            && ('.' !in text && ParseInt(text).Some? ==>
                  ScanToken(source, st) == Ok(ScanState(st.tokens + [Token(Number, text, Int(ParseInt(text).value), st.line, st.current)], e, st.line)))
  {
    NumberDispatch(source, st);
  }
}
