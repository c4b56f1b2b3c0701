/**
 * The parser as functions of the token list and the cursor. Every parsing
 * method of the Java class becomes a function from the cursor before it to
 * the cursor after it, together with the tree it builds or, where it throws,
 * the cursor at the throw: `parse` resynchronises from there. The messages of
 * the exceptions only reach stderr and are not modelled.
 *
 * Every function requires what `parse` relies on: the list ends with the
 * `EOF` token `scanTokens` appends, and the cursor is inside the list.
 */
module Parsing {
  import opened Wrappers
  import opened Values
  import opened Tokens
  import opened Ast
  import opened Precedences

  /** The outcome of a parsing method: what it built and the cursor after it, or the cursor where it threw. */
  datatype Step<+T> = Parsed(value: T, pos: nat) | Thrown(pos: nat)
  {
    predicate IsFailure() { Thrown? }
    function PropagateFailure<U>(): Step<U>
      requires Thrown?
    {
      Thrown(pos)
    }
    function Extract(): (T, nat)
      requires Parsed?
    {
      (value, pos)
    }
  }

  /** The input `parse` is given: `scanTokens`' output always ends with `EOF`. */
  predicate EndsWithEof(toks: seq<Token>)
  {
    |toks| > 0 && toks[|toks| - 1].kind == Eof
  }

  /** A cursor that `peek` can read. */
  predicate Cursor(toks: seq<Token>, pos: nat)
  {
    EndsWithEof(toks) && pos < |toks|
  }

  /** No `EOF` before `pos`: the cursor has not gone past the first `EOF`. */
  predicate BeforeEof(toks: seq<Token>, pos: nat)
  {
    forall k :: 0 <= k < pos && k < |toks| ==> toks[k].kind != Eof
  }

  predicate IsAtEnd(toks: seq<Token>, pos: nat)
    requires Cursor(toks, pos)
  {
    toks[pos].kind == Eof
  }

  /** `advance`: step over the current token unless it is `EOF`. */
  function Advance(toks: seq<Token>, pos: nat): (r: nat)
    requires Cursor(toks, pos)
    ensures Cursor(toks, r) && pos <= r <= pos + 1
    ensures r == pos <==> IsAtEnd(toks, pos)
    ensures BeforeEof(toks, pos) ==> BeforeEof(toks, r)
  {
    if IsAtEnd(toks, pos) then pos else pos + 1
  }

  /** `check`: the current token has this kind and is not `EOF`. */
  predicate Check(toks: seq<Token>, pos: nat, kind: TokenType)
    requires Cursor(toks, pos)
  {
    !IsAtEnd(toks, pos) && toks[pos].kind == kind
  }

  /** `consume`: the expected token, or a throw where the cursor stands. */
  function Consume(toks: seq<Token>, pos: nat, kind: TokenType): (r: Step<Token>)
    requires Cursor(toks, pos)
    ensures Cursor(toks, r.pos)
    ensures r.Parsed? <==> Check(toks, pos, kind)
    ensures r.Parsed? ==> r.value == toks[pos] && r.pos == pos + 1
    ensures r.Thrown? ==> r.pos == pos
  {
    if Check(toks, pos, kind) then Parsed(toks[pos], pos + 1) else Thrown(pos)
  }

  /** The prefix parse functions of the rule table. */
  datatype PrefixFn = PGrouping | PUnary | PVariable | PNumber | PString | PLiteral

  /** The infix parse functions of the rule table. */
  datatype InfixFn = ICall | IBinary | IAssign

  datatype Rule = Rule(prefix: Option<PrefixFn>, infix: Option<InfixFn>, precedence: Precedence)

  /** `getRule`: the rule table; `None` for the kinds it has no entry for (Java `null`). */
  function GetRule(kind: TokenType): (r: Option<Rule>)
    ensures r.Some? && r.value.prefix.Some? ==> kind != Eof
    ensures r.Some? && r.value.infix == Some(ICall) ==> r.value.precedence == PrecCall
    ensures r.Some? && r.value.infix == Some(IAssign) ==> r.value.precedence == PrecAssignment
  {
    match kind
    case LeftParen => Some(Rule(Some(PGrouping), Some(ICall), PrecCall))
    case Minus => Some(Rule(Some(PUnary), Some(IBinary), PrecTerm))
    case Plus => Some(Rule(None, Some(IBinary), PrecTerm))
    case Slash => Some(Rule(None, Some(IBinary), PrecFactor))
    case Star => Some(Rule(None, Some(IBinary), PrecFactor))
    case Percent => Some(Rule(None, Some(IBinary), PrecFactor))
    case Bang => Some(Rule(Some(PUnary), None, PrecUnary))
    case BangEqual => Some(Rule(None, Some(IBinary), PrecEquality))
    case EqualEqual => Some(Rule(None, Some(IBinary), PrecEquality))
    case Greater => Some(Rule(None, Some(IBinary), PrecComparison))
    case GreaterEqual => Some(Rule(None, Some(IBinary), PrecComparison))
    case Less => Some(Rule(None, Some(IBinary), PrecComparison))
    case LessEqual => Some(Rule(None, Some(IBinary), PrecComparison))
    case Identifier => Some(Rule(Some(PVariable), None, PrecNone))
    case Equal => Some(Rule(None, Some(IAssign), PrecAssignment))
    case Number => Some(Rule(Some(PNumber), None, PrecNone))
    case String => Some(Rule(Some(PString), None, PrecNone))
    case KwTrue => Some(Rule(Some(PLiteral), None, PrecNone))
    case KwFalse => Some(Rule(Some(PLiteral), None, PrecNone))
    case KwNil => Some(Rule(Some(PLiteral), None, PrecNone))
    case RightParen | LeftBrace | RightBrace | Comma | Dot | Semicolon | Colon
       | KwPrint | KwVar | KwInt | KwFloat | KwBool | KwFun | KwReturn | KwIf | KwElse
       | KwWhile | KwFor | Eof =>
      Some(Rule(None, None, PrecNone))
    case _ => None
  }

  /** The level of an operator token, as `binary` reads it from the table. */
  function OpLevel(kind: TokenType): Precedence
  {
    if GetRule(kind).Some? then GetRule(kind).value.precedence else PrecNone
  }

  /** `literal`: `Optional.of(true)`, `Optional.of(false)`, `null`, or the token's own literal. */
  function LiteralValue(t: Token): Value
  {
    if t.kind == KwTrue then OptionalBool(true)
    else if t.kind == KwFalse then OptionalBool(false)
    else if t.kind == KwNil then Nil
    else t.literal
  }

  /**
   * What `parsePrecedence(p)` can return: every operator outside parentheses
   * binds at least as tightly as `p`, a binary operator's right operand
   * binds strictly more tightly than the operator (left associativity), an
   * assignment's target is a name and its value is again an expression
   * (right associativity), and no increment or decrement node appears.
   */
  predicate Tight(e: Expr, p: Precedence)
    decreases e
  {
    match e
    case Binary(l, op, r) =>
      AtMost(p, OpLevel(op.kind)) && Tight(l, p) &&
      Successor(OpLevel(op.kind)).Some? && Tight(r, Successor(OpLevel(op.kind)).value)
    case Assign(_, v) => AtMost(p, PrecAssignment) && Tight(v, PrecAssignment)
    case Call(callee, _, args) =>
      AtMost(p, PrecCall) && Tight(callee, p) && forall a :: a in args ==> Tight(a, PrecAssignment)
    case Grouping(inner) => Tight(inner, PrecAssignment)
    case Unary(_, r) => Tight(r, PrecUnary)
    case Literal(_) => true
    case Variable(_) => true
    case Incremento(_, _, _) => false
    case Decremento(_, _, _) => false
  }

  /** What a prefix rule builds: it binds tightly enough for any level. */
  predicate Atom(e: Expr)
  {
    || e.Literal? || e.Variable?
    || (e.Grouping? && Tight(e.expression, PrecAssignment))
    || (e.Unary? && Tight(e.right, PrecUnary))
  }

  lemma AtomTight(e: Expr, p: Precedence)
    requires Atom(e)
    ensures Tight(e, p)
  {
  }

  /** `expression()`. */
  function Expression(toks: seq<Token>, pos: nat): (r: Step<Expr>)
    requires Cursor(toks, pos)
    ensures Cursor(toks, r.pos) && pos <= r.pos
    ensures r.Parsed? ==> pos < r.pos && Tight(r.value, PrecAssignment)
    decreases |toks| - pos, 3
  {
    ParsePrecedence(toks, pos, PrecAssignment)
  }

  /**
   * `parsePrecedence`: advance over the prefix token, throw if it has no
   * prefix rule, then extend the expression while the next token's level is
   * at least `prec`.
   */
  function ParsePrecedence(toks: seq<Token>, pos: nat, prec: Precedence): (r: Step<Expr>)
    requires Cursor(toks, pos)
    ensures Cursor(toks, r.pos) && pos <= r.pos
    ensures r.Parsed? ==> pos < r.pos && Tight(r.value, prec)
    decreases |toks| - pos, 2
  {
    var rule := GetRule(toks[pos].kind);
    var p1 := Advance(toks, pos);
    if rule.None? || rule.value.prefix.None? then Thrown(p1)
    else
      var left :- Prefix(toks, p1, rule.value.prefix.value);
      AtomTight(left.0, prec);
      InfixLoop(toks, left.1, prec, left.0)
  }

  /** The `while` loop of `parsePrecedence`. */
  function InfixLoop(toks: seq<Token>, pos: nat, prec: Precedence, left: Expr): (r: Step<Expr>)
    requires Cursor(toks, pos) && 1 <= pos && Tight(left, prec)
    ensures Cursor(toks, r.pos) && pos <= r.pos
    ensures r.Parsed? ==> Tight(r.value, prec)
    decreases |toks| - pos, 1
  {
    if IsAtEnd(toks, pos) then Parsed(left, pos)
    else
      match GetRule(toks[pos].kind)
      case None => Thrown(pos)
      case Some(rule) =>
        if !AtMost(prec, rule.precedence) then Parsed(left, pos)
        else if rule.infix.None? then Parsed(left, pos + 1)
        else
          var next :- Infix(toks, pos + 1, rule.infix.value, left);
          InfixStep(toks, pos, prec, left, next.0);
          InfixLoop(toks, next.1, prec, next.0)
  }

  /** One turn of the loop keeps the tree within the level being parsed. */
  lemma InfixStep(toks: seq<Token>, pos: nat, prec: Precedence, left: Expr, e: Expr)
    requires Cursor(toks, pos) && !IsAtEnd(toks, pos) && GetRule(toks[pos].kind).Some?
    requires var rule := GetRule(toks[pos].kind).value;
             AtMost(prec, rule.precedence) && rule.infix.Some? && Tight(left, prec) &&
             InfixBuilt(toks, pos + 1, rule.infix.value, left, e)
    ensures Tight(e, prec)
  {
  }

  /** A turn of the loop that applies an infix rule: the loop goes on from where the rule left off, or throws there. */
  lemma InfixLoopApplies(toks: seq<Token>, pos: nat, prec: Precedence, left: Expr, rule: Rule)
    requires Cursor(toks, pos) && 1 <= pos && !IsAtEnd(toks, pos) && Tight(left, prec)
    requires GetRule(toks[pos].kind) == Some(rule) && AtMost(prec, rule.precedence) && rule.infix.Some?
    ensures var n := Infix(toks, pos + 1, rule.infix.value, left);
            && (n.Thrown? ==> InfixLoop(toks, pos, prec, left) == Thrown(n.pos))
            && (n.Parsed? ==> Tight(n.value, prec) && InfixLoop(toks, pos, prec, left) == InfixLoop(toks, n.pos, prec, n.value))
  {
    var n := Infix(toks, pos + 1, rule.infix.value, left);
    if n.Parsed? {
      InfixStep(toks, pos, prec, left, n.value);
    }
  }

  /** The prefix parse functions; `pos` is just after the prefix token. */
  function Prefix(toks: seq<Token>, pos: nat, f: PrefixFn): (r: Step<Expr>)
    requires Cursor(toks, pos) && 1 <= pos
    ensures Cursor(toks, r.pos) && pos <= r.pos
    ensures r.Parsed? ==> Atom(r.value) && r.pos >= pos
    decreases |toks| - pos, 4
  {
    var prev := toks[pos - 1];
    match f
    case PNumber => Parsed(Literal(prev.literal), pos)
    case PString => Parsed(Literal(prev.literal), pos)
    case PLiteral => Parsed(Literal(LiteralValue(prev)), pos)
    case PVariable => Parsed(Variable(prev), pos)
    case PGrouping =>
      var inner :- Expression(toks, pos);
      var close :- Consume(toks, inner.1, RightParen);
      Parsed(Grouping(inner.0), close.1)
    case PUnary =>
      var right :- ParsePrecedence(toks, pos, PrecUnary);
      Parsed(Unary(prev, right.0), right.1)
  }

  /** What an infix parse function builds from `left` and the operator before `pos`. */
  predicate InfixBuilt(toks: seq<Token>, pos: nat, f: InfixFn, left: Expr, e: Expr)
    requires Cursor(toks, pos) && 1 <= pos
  {
    var op := toks[pos - 1];
    match f
    case IBinary =>
      e.Binary? && e.left == left && e.operator == op &&
      Successor(OpLevel(op.kind)).Some? && Tight(e.right, Successor(OpLevel(op.kind)).value)
    case IAssign => left.Variable? && e.Assign? && e == Assign(left.name, e.newValue) && Tight(e.newValue, PrecAssignment)
    case ICall =>
      e.Call? && e.callee == left && forall a :: a in e.arguments ==> Tight(a, PrecAssignment)
  }

  /**
   * The infix parse functions; `pos` is just after the operator. `binary`
   * reads the operator's level from the table and parses its right operand one level up
   * (`values()[ordinal + 1]`, which would throw past `PRIMARY`); `assign`
   * throws unless the left side is a variable.
   */
  function Infix(toks: seq<Token>, pos: nat, f: InfixFn, left: Expr): (r: Step<Expr>)
    requires Cursor(toks, pos) && 1 <= pos
    ensures Cursor(toks, r.pos) && pos <= r.pos
    ensures r.Parsed? ==> InfixBuilt(toks, pos, f, left, r.value)
    decreases |toks| - pos, 5
  {
    var op := toks[pos - 1];
    match f
    case IBinary =>
      (match Successor(OpLevel(op.kind))
       case None => Thrown(pos)
       case Some(next) =>
         var right :- ParsePrecedence(toks, pos, next);
         Parsed(Binary(left, op, right.0), right.1))
    case IAssign =>
      if !left.Variable? then Thrown(pos)
      else
        var value :- ParsePrecedence(toks, pos, PrecAssignment);
        Parsed(Assign(left.name, value.0), value.1)
    case ICall =>
      if Check(toks, pos, RightParen) then Parsed(Call(left, toks[pos], []), pos + 1)
      else
        var args :- Arguments(toks, pos, []);
        var paren :- Consume(toks, args.1, RightParen);
        Parsed(Call(left, paren.0, args.0), paren.1)
  }

  /** The `do ... while (match(COMMA))` loop of `call`. */
  function Arguments(toks: seq<Token>, pos: nat, acc: seq<Expr>): (r: Step<seq<Expr>>)
    requires Cursor(toks, pos)
    requires forall a :: a in acc ==> Tight(a, PrecAssignment)
    ensures Cursor(toks, r.pos) && pos <= r.pos
    ensures r.Parsed? ==> |acc| < |r.value| && r.value[..|acc|] == acc
    ensures r.Parsed? ==> forall a :: a in r.value ==> Tight(a, PrecAssignment)
    decreases |toks| - pos, 4
  {
    var arg :- Expression(toks, pos);
    if Check(toks, arg.1, Comma) then
      var r := Arguments(toks, arg.1 + 1, acc + [arg.0]);
      if r.Thrown? then r else
      assert r.value[..|acc|] == (acc + [arg.0])[..|acc|];
      r
    else Parsed(acc + [arg.0], arg.1)
  }

  // ---------------------------------------------------------------- statements

  /** The keywords `synchronize` stops before. */
  const SyncKinds: set<TokenType> := {KwVar, KwFun, KwFor, KwIf, KwWhile, KwPrint, KwReturn, KwElse}

  /** `synchronize`: skip the token that failed, then up to just after a `;` or just before a statement keyword. */
  function Synchronize(toks: seq<Token>, pos: nat): (r: nat)
    requires Cursor(toks, pos)
    ensures Cursor(toks, r) && pos <= r
    ensures !IsAtEnd(toks, pos) ==> pos < r
  {
    SyncLoop(toks, Advance(toks, pos))
  }

  /** The loop of `synchronize`. */
  function SyncLoop(toks: seq<Token>, pos: nat): (r: nat)
    requires Cursor(toks, pos) && (1 <= pos || IsAtEnd(toks, pos))
    ensures Cursor(toks, r) && pos <= r
    decreases |toks| - pos
  {
    if IsAtEnd(toks, pos) then pos
    else if toks[pos - 1].kind == Semicolon then pos
    else if toks[pos].kind in SyncKinds then pos
    else SyncLoop(toks, pos + 1)
  }

  /** `consume(SEMICOLON, ...)` after a statement. */
  function Terminated(toks: seq<Token>, pos: nat, s: Stmt): (r: Step<Stmt>)
    requires Cursor(toks, pos)
    ensures Cursor(toks, r.pos) && pos <= r.pos
    ensures r.Parsed? ==> r.value == s && r.pos == pos + 1 && toks[pos].kind == Semicolon
  {
    var semi :- Consume(toks, pos, Semicolon);
    Parsed(s, semi.1)
  }

  /**
   * A statement that ends with an `if` without `else` leaves the cursor
   * on something other than `SENAO`: that `if` tried to take it.
   */
  predicate NoElseNext(toks: seq<Token>, r: Step<Stmt>)
    requires Cursor(toks, r.pos)
  {
    r.Parsed? && r.value.If? && r.value.elseBranch.None? ==> toks[r.pos].kind != KwElse
  }

  /** `declaration`: dispatch on the first keyword, or an expression statement. */
  function Declaration(toks: seq<Token>, pos: nat): (r: Step<Stmt>)
    requires Cursor(toks, pos)
    ensures Cursor(toks, r.pos) && pos <= r.pos
    ensures r.Parsed? ==> pos < r.pos
    ensures NoElseNext(toks, r)
    decreases |toks| - pos, 1
  {
    if Check(toks, pos, KwVar) then VarDeclaration(toks, pos + 1)
    else if Check(toks, pos, KwWhile) then WhileStatement(toks, pos + 1)
    else if Check(toks, pos, KwPrint) then PrintStatement(toks, pos + 1)
    else if Check(toks, pos, KwIf) then IfStatement(toks, pos + 1)
    else if Check(toks, pos, KwInput) then InputStatement(toks, pos + 1)
    else if Check(toks, pos, KwSwitch) then SwitchStatement(toks, pos + 1)
    else if Check(toks, pos, KwBreak) then BreakStatement(toks, pos + 1)
    else ExpressionStatement(toks, pos)
  }

  /** `ifStatement`: the `else` is taken by the innermost `if` that reaches it. */
  function IfStatement(toks: seq<Token>, pos: nat): (r: Step<Stmt>)
    requires Cursor(toks, pos)
    ensures Cursor(toks, r.pos) && pos <= r.pos
    ensures r.Parsed? ==> pos < r.pos && r.value.If?
    ensures NoElseNext(toks, r)
    decreases |toks| - pos, 0
  {
    var open :- Consume(toks, pos, LeftParen);
    var cond :- Expression(toks, open.1);
    var close :- Consume(toks, cond.1, RightParen);
    var thenBranch :- StatementOrBlock(toks, close.1);
    ElseBranch(toks, thenBranch.1, cond.0, thenBranch.0)
  }

  /** The end of `ifStatement`: an `else` branch if `SENAO` follows. */
  function ElseBranch(toks: seq<Token>, pos: nat, cond: Expr, thenBranch: Stmt): (r: Step<Stmt>)
    requires Cursor(toks, pos)
    ensures Cursor(toks, r.pos) && pos <= r.pos
    ensures r.Parsed? ==> r.value.If? && r.value.condition == cond && r.value.thenBranch == thenBranch
    ensures r.Parsed? && r.value.elseBranch.None? ==> r.pos == pos && !Check(toks, pos, KwElse)
    decreases |toks| - pos, 3
  {
    if Check(toks, pos, KwElse) then
      var elseBranch :- StatementOrBlock(toks, pos + 1);
      Parsed(If(cond, thenBranch, Some(elseBranch.0)), elseBranch.1)
    else Parsed(If(cond, thenBranch, None), pos)
  }

  /** The two ways `ElseBranch` goes: no `SENAO`, or `SENAO` and whatever its statement gives. */
  lemma ElseBranchCases(toks: seq<Token>, pos: nat, cond: Expr, thenBranch: Stmt)
    requires Cursor(toks, pos)
    ensures !Check(toks, pos, KwElse) ==> ElseBranch(toks, pos, cond, thenBranch) == Parsed(If(cond, thenBranch, None), pos)
    ensures Check(toks, pos, KwElse) ==>
              var e := StatementOrBlock(toks, pos + 1);
              ElseBranch(toks, pos, cond, thenBranch) == if e.Parsed? then Parsed(If(cond, thenBranch, Some(e.value)), e.pos) else Thrown(e.pos)
  {
  }

  /** `statementBlocoOuSimples`: a braced block or a single declaration. */
  function StatementOrBlock(toks: seq<Token>, pos: nat): (r: Step<Stmt>)
    requires Cursor(toks, pos)
    ensures Cursor(toks, r.pos) && pos <= r.pos
    ensures r.Parsed? ==> pos < r.pos
    ensures NoElseNext(toks, r)
    decreases |toks| - pos, 2
  {
    if Check(toks, pos, LeftBrace) then Block(toks, pos + 1) else Declaration(toks, pos)
  }

  /** `inputStatement`. */
  function InputStatement(toks: seq<Token>, pos: nat): (r: Step<Stmt>)
    requires Cursor(toks, pos)
    ensures Cursor(toks, r.pos) && pos <= r.pos
    ensures r.Parsed? ==> r.pos == pos + 2 && r.value == Input(toks[pos]) && toks[pos].kind == Identifier
  {
    var name :- Consume(toks, pos, Identifier);
    Terminated(toks, name.1, Input(name.0))
  }

  /** `block`: declarations up to the closing brace; the opening one is already consumed. */
  function Block(toks: seq<Token>, pos: nat): (r: Step<Stmt>)
    requires Cursor(toks, pos)
    ensures Cursor(toks, r.pos) && pos <= r.pos
    ensures r.Parsed? ==> pos < r.pos && r.value.Block? && toks[r.pos - 1].kind == RightBrace
    decreases |toks| - pos, 3
  {
    var body :- BlockBody(toks, pos, []);
    var close :- Consume(toks, body.1, RightBrace);
    Parsed(Stmt.Block(body.0), close.1)
  }

  /** The loop of `block`. */
  function BlockBody(toks: seq<Token>, pos: nat, acc: seq<Stmt>): (r: Step<seq<Stmt>>)
    requires Cursor(toks, pos)
    ensures Cursor(toks, r.pos) && pos <= r.pos
    ensures r.Parsed? ==> Check(toks, r.pos, RightBrace) || IsAtEnd(toks, r.pos)
    decreases |toks| - pos, 2
  {
    if Check(toks, pos, RightBrace) || IsAtEnd(toks, pos) then Parsed(acc, pos)
    else
      var s :- Declaration(toks, pos);
      BlockBody(toks, s.1, acc + [s.0])
  }

  /** `whileStatement`: `(`, condition, `)`, then a braced block is required. */
  function WhileStatement(toks: seq<Token>, pos: nat): (r: Step<Stmt>)
    requires Cursor(toks, pos)
    ensures Cursor(toks, r.pos) && pos <= r.pos
    ensures r.Parsed? ==> pos < r.pos && r.value.While? && r.value.loopBody.Block?
    decreases |toks| - pos, 0
  {
    var open :- Consume(toks, pos, LeftParen);
    var cond :- Expression(toks, open.1);
    var close :- Consume(toks, cond.1, RightParen);
    var brace :- Consume(toks, close.1, LeftBrace);
    var body :- Block(toks, brace.1);
    Parsed(While(cond.0, body.0), body.1)
  }

  /** `switchStatement`: the scrutinee, `{`, the arms, `}`. */
  function SwitchStatement(toks: seq<Token>, pos: nat): (r: Step<Stmt>)
    requires Cursor(toks, pos)
    ensures Cursor(toks, r.pos) && pos <= r.pos
    ensures r.Parsed? ==> pos < r.pos && r.value.Switch?
    decreases |toks| - pos, 0
  {
    var scrutinee :- Expression(toks, pos);
    var brace :- Consume(toks, scrutinee.1, LeftBrace);
    var arms :- SwitchArms(toks, brace.1, [], None);
    var close :- Consume(toks, arms.1, RightBrace);
    Parsed(Switch(scrutinee.0, arms.0.0, arms.0.1), close.1)
  }

  /**
   * The loop of `switchStatement`: `CASO value:` arms are appended in order,
   * a `PADRAO:` arm replaces any earlier default, anything else throws.
   */
  function SwitchArms(toks: seq<Token>, pos: nat, cases: seq<Case>, dflt: Option<Case>): (r: Step<(seq<Case>, Option<Case>)>)
    requires Cursor(toks, pos)
    ensures Cursor(toks, r.pos) && pos <= r.pos
    ensures r.Parsed? ==> |cases| <= |r.value.0| && r.value.0[..|cases|] == cases
    ensures r.Parsed? ==> Check(toks, r.pos, RightBrace) || IsAtEnd(toks, r.pos)
    decreases |toks| - pos, 1
  {
    if Check(toks, pos, RightBrace) || IsAtEnd(toks, pos) then Parsed((cases, dflt), pos)
    else if Check(toks, pos, KwCase) then
      var arm :- CaseBody(toks, pos + 1);
      var r := SwitchArms(toks, arm.1, cases + [arm.0], dflt);
      if r.Thrown? then r else
      assert r.value.0[..|cases|] == (cases + [arm.0])[..|cases|];
      r
    else if Check(toks, pos, KwDefault) then
      var arm :- DefaultBody(toks, pos + 1);
      SwitchArms(toks, arm.1, cases, Some(arm.0))
    else Thrown(pos)
  }

  /** The rest of a `CASO value: statement` arm; `pos` is just after `CASO`. */
  function CaseBody(toks: seq<Token>, pos: nat): (r: Step<Case>)
    requires Cursor(toks, pos)
    ensures Cursor(toks, r.pos) && pos <= r.pos
    ensures r.Parsed? ==> pos < r.pos && r.value.value.Some?
    decreases |toks| - pos, 0
  {
    var value :- Expression(toks, pos);
    var colon :- Consume(toks, value.1, Colon);
    var body :- StatementOrBlock(toks, colon.1);
    Parsed(Case(Some(value.0), body.0), body.1)
  }

  /** The rest of a `PADRAO: statement` arm; `pos` is just after `PADRAO`. */
  function DefaultBody(toks: seq<Token>, pos: nat): (r: Step<Case>)
    requires Cursor(toks, pos)
    ensures Cursor(toks, r.pos) && pos <= r.pos
    ensures r.Parsed? ==> pos < r.pos && r.value.value.None?
    decreases |toks| - pos, 0
  {
    var colon :- Consume(toks, pos, Colon);
    var body :- StatementOrBlock(toks, colon.1);
    Parsed(Case(None, body.0), body.1)
  }

  /** `breakStatement`. */
  function BreakStatement(toks: seq<Token>, pos: nat): (r: Step<Stmt>)
    requires Cursor(toks, pos)
    ensures Cursor(toks, r.pos) && pos <= r.pos
    ensures r.Parsed? ==> r == Parsed(Break, pos + 1) && toks[pos].kind == Semicolon
  {
    Terminated(toks, pos, Break)
  }

  /** `varDeclaration`: a name, an optional `= initializer`, `;`. */
  function VarDeclaration(toks: seq<Token>, pos: nat): (r: Step<Stmt>)
    requires Cursor(toks, pos)
    ensures Cursor(toks, r.pos) && pos <= r.pos
    ensures r.Parsed? ==> pos < r.pos && r.value.Var? && r.value.name == toks[pos] && r.value.typeToken.None?
    ensures r.Parsed? ==> (r.value.initializer.Some? <==> toks[pos + 1].kind == Equal)
  {
    var name :- Consume(toks, pos, Identifier);
    if Check(toks, name.1, Equal) then
      var init :- Expression(toks, name.1 + 1);
      Terminated(toks, init.1, Var(None, name.0, Some(init.0)))
    else Terminated(toks, name.1, Var(None, name.0, None))
  }

  /** `printStatement`. */
  function PrintStatement(toks: seq<Token>, pos: nat): (r: Step<Stmt>)
    requires Cursor(toks, pos)
    ensures Cursor(toks, r.pos) && pos <= r.pos
    ensures r.Parsed? ==> pos < r.pos && r.value.Print?
  {
    var value :- Expression(toks, pos);
    Terminated(toks, value.1, Print(value.0))
  }

  /** `expressionStatement`. */
  function ExpressionStatement(toks: seq<Token>, pos: nat): (r: Step<Stmt>)
    requires Cursor(toks, pos)
    ensures Cursor(toks, r.pos) && pos <= r.pos
    ensures r.Parsed? ==> pos < r.pos && r.value.Expression? && Tight(r.value.expr, PrecAssignment)
  {
    var e :- Expression(toks, pos);
    Terminated(toks, e.1, Stmt.Expression(e.0))
  }

  // ---------------------------------------------------------------- parse

  /** The loop of `parse`: a failed declaration is dropped and the cursor resynchronised. */
  function ParseFrom(toks: seq<Token>, pos: nat, acc: seq<Stmt>): (r: seq<Stmt>)
    requires Cursor(toks, pos)
    decreases |toks| - pos
  {
    if IsAtEnd(toks, pos) then acc
    else
      match Declaration(toks, pos)
      case Parsed(s, p) => ParseFrom(toks, p, acc + [s])
      case Thrown(p) => ParseFrom(toks, Synchronize(toks, p), acc)
  }

  /** `new Parser(tokens).parse()`. */
  function Parse(toks: seq<Token>): seq<Stmt>
    requires EndsWithEof(toks)
  {
    ParseFrom(toks, 0, [])
  }

  // ---------------------------------------------------------------- properties

  /** Statements are kept in the order they were parsed; failed ones are dropped, nothing is reordered. */
  lemma {:induction false} ParseKeepsOrder(toks: seq<Token>, pos: nat, acc: seq<Stmt>)
    requires Cursor(toks, pos)
    ensures |acc| <= |ParseFrom(toks, pos, acc)| && ParseFrom(toks, pos, acc)[..|acc|] == acc
    decreases |toks| - pos
  {
    if !IsAtEnd(toks, pos) {
      match Declaration(toks, pos)
      case Parsed(s, p) =>
        ParseKeepsOrder(toks, p, acc + [s]);
        assert (acc + [s])[..|acc|] == acc;
      case Thrown(p) =>
        ParseKeepsOrder(toks, Synchronize(toks, p), acc);
    }
  }

  /** Every turn of `parse`'s loop moves the cursor: a declaration consumes a token, and so does recovery. */
  lemma ParseTurnAdvances(toks: seq<Token>, pos: nat)
    requires Cursor(toks, pos) && !IsAtEnd(toks, pos)
    ensures var d := Declaration(toks, pos);
            pos < (if d.Parsed? then d.pos else Synchronize(toks, d.pos))
  {
  }

  /** A position `synchronize` walks past: not the end, not after a `;`, not at a statement keyword. */
  predicate PassesOver(toks: seq<Token>, k: nat)
  {
    1 <= k < |toks| && toks[k].kind != Eof && toks[k - 1].kind != Semicolon && toks[k].kind !in SyncKinds
  }

  /**
   * `synchronize` stops at the end, just after a `;`, or just before a
   * statement keyword, and at the first such place after the failed token.
   */
  lemma {:induction false} SyncLoopStops(toks: seq<Token>, pos: nat)
    requires Cursor(toks, pos) && (1 <= pos || IsAtEnd(toks, pos))
    ensures var r := SyncLoop(toks, pos);
            IsAtEnd(toks, r) || toks[r - 1].kind == Semicolon || toks[r].kind in SyncKinds
    ensures var r := SyncLoop(toks, pos);
            forall k :: pos <= k < r ==> PassesOver(toks, k)
    decreases |toks| - pos
  {
    if !IsAtEnd(toks, pos) && toks[pos - 1].kind != Semicolon && toks[pos].kind !in SyncKinds {
      SyncLoopStops(toks, pos + 1);
    }
  }

  lemma SynchronizeStops(toks: seq<Token>, pos: nat)
    requires Cursor(toks, pos)
    ensures var r := Synchronize(toks, pos);
            IsAtEnd(toks, r) || toks[r - 1].kind == Semicolon || toks[r].kind in SyncKinds
    ensures var r := Synchronize(toks, pos);
            forall k :: Advance(toks, pos) <= k < r ==> PassesOver(toks, k)
  {
    SyncLoopStops(toks, Advance(toks, pos));
  }

  /**
   * Left associativity: the right operand of a binary operator never has,
   * outside parentheses, an operator of the same or a lower level at its top.
   */
  lemma LeftAssociative(l: Expr, op: Token, r: Expr, p: Precedence)
    requires Tight(Binary(l, op, r), p) && r.Binary?
    ensures Level(OpLevel(op.kind)) < Level(OpLevel(r.operator.kind))
  {
  }

  /** A parsed expression contains an increment or decrement node nowhere: no rule builds one. */
  predicate HasStepNode(e: Expr)
    decreases e
  {
    match e
    case Incremento(_, _, _) => true
    case Decremento(_, _, _) => true
    case Assign(_, v) => HasStepNode(v)
    case Binary(l, _, r) => HasStepNode(l) || HasStepNode(r)
    case Call(callee, _, args) => HasStepNode(callee) || exists a :: a in args && HasStepNode(a)
    case Grouping(inner) => HasStepNode(inner)
    case Unary(_, r) => HasStepNode(r)
    case Literal(_) => false
    case Variable(_) => false
  }

  lemma {:induction false} TightHasNoStepNode(e: Expr, p: Precedence)
    requires Tight(e, p)
    ensures !HasStepNode(e)
    decreases e
  {
    match e
    case Binary(l, op, r) =>
      TightHasNoStepNode(l, p);
      TightHasNoStepNode(r, Successor(OpLevel(op.kind)).value);
    case Assign(_, v) => TightHasNoStepNode(v, PrecAssignment);
    case Call(callee, _, args) =>
      TightHasNoStepNode(callee, p);
      forall a | a in args
        ensures !HasStepNode(a)
      {
        TightHasNoStepNode(a, PrecAssignment);
      }
    case Grouping(inner) => TightHasNoStepNode(inner, PrecAssignment);
    case Unary(_, r) => TightHasNoStepNode(r, PrecUnary);
    case Literal(_) =>
    case Variable(_) =>
  }

  /** Assignment accepts only a variable on its left: anything else throws where the value would start. */
  lemma AssignTargetMustBeVariable(toks: seq<Token>, pos: nat, left: Expr)
    requires Cursor(toks, pos) && 1 <= pos
    ensures !left.Variable? ==> Infix(toks, pos, IAssign, left) == Thrown(pos)
    ensures left.Variable? && Infix(toks, pos, IAssign, left).Parsed? ==>
              Infix(toks, pos, IAssign, left).value.Assign? &&
              Infix(toks, pos, IAssign, left).value.name == left.name
  {
  }

  /** The table gives `ISSOAI`, `MENTIRA` and `NULO` the `literal` rule, numbers and strings their own. */
  lemma LiteralRules()
    ensures GetRule(KwTrue).value.prefix == Some(PLiteral) && GetRule(KwFalse).value.prefix == Some(PLiteral)
    ensures GetRule(KwNil).value.prefix == Some(PLiteral)
    ensures GetRule(Number).value.prefix == Some(PNumber) && GetRule(String).value.prefix == Some(PString)
  {
  }

  /**
   * `literal`: `ISSOAI` and `MENTIRA` become `Optional` values, so both are
   * truthy, and `NULO` becomes `null`; the cursor does not move.
   */
  lemma BooleanLiterals(toks: seq<Token>, pos: nat)
    requires Cursor(toks, pos) && 1 <= pos
    ensures var t := toks[pos - 1];
            var r := Prefix(toks, pos, PLiteral);
            && r.Parsed? && r.pos == pos && r.value.Literal?
            && (t.kind == KwTrue ==> r.value.literal == OptionalBool(true) && IsTruthy(r.value.literal))
            && (t.kind == KwFalse ==> r.value.literal == OptionalBool(false) && IsTruthy(r.value.literal))
            && (t.kind == KwNil ==> r.value.literal == Nil && !IsTruthy(r.value.literal))
  {
  }

  /** `number` and `string` keep the literal the scanner gave the token. */
  lemma ScannedLiterals(toks: seq<Token>, pos: nat)
    requires Cursor(toks, pos) && 1 <= pos
    ensures Prefix(toks, pos, PNumber) == Parsed(Literal(toks[pos - 1].literal), pos)
    ensures Prefix(toks, pos, PString) == Parsed(Literal(toks[pos - 1].literal), pos)
  {
  }

  /** A dangling `else` belongs to the innermost `if`: an unbraced inner `if` without one leaves none for the outer. */
  lemma DanglingElse(toks: seq<Token>, pos: nat)
    requires Cursor(toks, pos) && IfStatement(toks, pos).Parsed?
    ensures var s := IfStatement(toks, pos).value;
            s.thenBranch.If? && s.thenBranch.elseBranch.None? ==> s.elseBranch.None?
  {
  }

  /** Inside a switch's braces, a token other than `CASO`, `PADRAO` or `}` throws where it stands. */
  lemma SwitchRejectsOtherTokens(toks: seq<Token>, pos: nat, cases: seq<Case>, dflt: Option<Case>)
    requires Cursor(toks, pos) && !IsAtEnd(toks, pos)
    requires toks[pos].kind !in {RightBrace, KwCase, KwDefault}
    ensures SwitchArms(toks, pos, cases, dflt) == Thrown(pos)
  {
  }

  /** A `PADRAO` arm makes any earlier default irrelevant: the later one replaces it. */
  lemma LaterDefaultReplaces(toks: seq<Token>, pos: nat, cases: seq<Case>, d1: Option<Case>, d2: Option<Case>)
    requires Cursor(toks, pos) && Check(toks, pos, KwDefault)
    ensures SwitchArms(toks, pos, cases, d1) == SwitchArms(toks, pos, cases, d2)
  {
  }
}
