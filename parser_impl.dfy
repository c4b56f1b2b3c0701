/**
 * The parser as the Java class has it: a token list and a cursor that the
 * parsing methods move forward. A method that throws in Java returns `None`
 * here, and every caller passes the `None` straight up, as the exception
 * unwinds to `parse`. Each method is proved to leave the cursor where the
 * matching function of `Parsing` says and to return the tree it builds, so
 * every lemma about those functions holds of this class.
 */
module ParserImpl {
  import opened Wrappers
  import opened Tokens
  import opened Ast
  import opened Precedences
  import opened Parsing

  /** A method's outcome and cursor agree with the function that specifies it. */
  predicate Agrees<T(==)>(s: Step<T>, r: Option<T>, current: nat)
  {
    match s
    case Parsed(v, p) => r == Some(v) && current == p
    case Thrown(p) => r.None? && current == p
  }

  class Parser {
    const tokens: seq<Token>
    var current: nat

    constructor(tokens: seq<Token>)
      requires EndsWithEof(tokens)
      ensures this.tokens == tokens && current == 0 && Cursor(tokens, current)
    {
      this.tokens := tokens;
      current := 0;
    }

    predicate IsAtEnd()
      requires Cursor(tokens, current)
      reads this
    {
      Parsing.IsAtEnd(tokens, current)
    }

    predicate Check(kind: TokenType)
      requires Cursor(tokens, current)
      reads this
    {
      Parsing.Check(tokens, current, kind)
    }

    method Advance()
      requires Cursor(tokens, current)
      modifies this
      ensures current == Parsing.Advance(tokens, old(current))
    {
      if !IsAtEnd() {
        current := current + 1;
      }
    }

    /** `match`: step over the current token if it has this kind. */
    method Match(kind: TokenType) returns (matched: bool)
      requires Cursor(tokens, current)
      modifies this
      ensures matched == Parsing.Check(tokens, old(current), kind)
      ensures current == old(current) + (if matched then 1 else 0)
    {
      matched := Check(kind);
      if matched {
        current := current + 1;
      }
    }

    method Consume(kind: TokenType) returns (r: Option<Token>)
      requires Cursor(tokens, current)
      modifies this
      ensures Agrees(Parsing.Consume(tokens, old(current), kind), r, current)
    {
      if Check(kind) {
        r := Some(tokens[current]);
        current := current + 1;
      } else {
        r := None;
      }
    }

    // ------------------------------------------------------------ expressions

    method Expression() returns (r: Option<Expr>)
      requires Cursor(tokens, current)
      modifies this
      ensures Agrees(Parsing.Expression(tokens, old(current)), r, current)
      decreases |tokens| - current, 3
    {
      r := ParsePrecedence(PrecAssignment);
    }

    method ParsePrecedence(prec: Precedence) returns (r: Option<Expr>)
      requires Cursor(tokens, current)
      modifies this
      ensures Agrees(Parsing.ParsePrecedence(tokens, old(current), prec), r, current)
      decreases |tokens| - current, 2
    {
      var prefixRule := GetRule(tokens[current].kind);
      Advance();
      if prefixRule.None? || prefixRule.value.prefix.None? {
        return None;
      }
      var first := Prefix(prefixRule.value.prefix.value);
      if first.None? {
        return None;
      }
      AtomTight(first.value, prec);
      r := InfixLoop(prec, first.value);
    }

    /** The `while` loop of `parsePrecedence`, extending `left` while operators bind at least as tightly as `prec`. */
    method InfixLoop(prec: Precedence, left: Expr) returns (r: Option<Expr>)
      requires Cursor(tokens, current) && 1 <= current && Tight(left, prec)
      modifies this
      ensures Agrees(Parsing.InfixLoop(tokens, old(current), prec, left), r, current)
      decreases |tokens| - current, 2
    {
      var expr := left;
      while true
        invariant Cursor(tokens, current) && old(current) <= current && 1 <= current && Tight(expr, prec)
        invariant Parsing.InfixLoop(tokens, current, prec, expr) == Parsing.InfixLoop(tokens, old(current), prec, left)
        decreases |tokens| - current
      {
        var done, next := InfixTurn(prec, expr);
        if done {
          return next;
        }
        expr := next.value;
      }
    }

    /** One turn of the loop of `parsePrecedence`: `done` when the loop ends or throws. */
    method InfixTurn(prec: Precedence, left: Expr) returns (done: bool, r: Option<Expr>)
      requires Cursor(tokens, current) && 1 <= current && Tight(left, prec)
      modifies this
      ensures Cursor(tokens, current) && old(current) <= current
      ensures done ==> Agrees(Parsing.InfixLoop(tokens, old(current), prec, left), r, current)
      ensures !done ==> old(current) < current && r.Some? && Tight(r.value, prec) &&
                        Parsing.InfixLoop(tokens, old(current), prec, left) == Parsing.InfixLoop(tokens, current, prec, r.value)
      decreases |tokens| - current, 1
    {
      if IsAtEnd() {
        return true, Some(left);
      }
      var infixRule := GetRule(tokens[current].kind);
      if infixRule.None? {
        // the loop condition dereferences the missing rule
        return true, None;
      }
      if !AtMost(prec, infixRule.value.precedence) {
        return true, Some(left);
      }
      r := ApplyInfix(prec, left, current, infixRule.value);
      done := r.None? || infixRule.value.infix.None?;
    }

    /** The end of a turn: step over the operator and apply its infix rule, if it has one. */
    method ApplyInfix(prec: Precedence, left: Expr, ghost operator: nat, rule: Rule) returns (r: Option<Expr>)
      requires Cursor(tokens, current) && current == operator && 1 <= current && !IsAtEnd() && Tight(left, prec)
      requires GetRule(tokens[current].kind) == Some(rule) && AtMost(prec, rule.precedence)
      modifies this
      ensures Cursor(tokens, current) && operator < current
      ensures rule.infix.None? ==> r == Some(left) && Parsing.InfixLoop(tokens, operator, prec, left) == Parsed(left, current)
      ensures rule.infix.Some? && r.None? ==> Parsing.InfixLoop(tokens, operator, prec, left) == Thrown(current)
      ensures rule.infix.Some? && r.Some? ==>
                Tight(r.value, prec) && Parsing.InfixLoop(tokens, operator, prec, left) == Parsing.InfixLoop(tokens, current, prec, r.value)
      decreases |tokens| - current, 0
    {
      Advance();
      if rule.infix.None? {
        return Some(left);
      }
      InfixLoopApplies(tokens, operator, prec, left, rule);
      r := Infix(rule.infix.value, left);
    }

    /** The prefix rule functions: `number`, `string`, `literal`, `variable`, `grouping`, `unary`. */
    method Prefix(f: PrefixFn) returns (r: Option<Expr>)
      requires Cursor(tokens, current) && 1 <= current
      modifies this
      ensures Agrees(Parsing.Prefix(tokens, old(current), f), r, current)
      decreases |tokens| - current, 4
    {
      var previous := tokens[current - 1];
      match f
      case PNumber => r := Some(Literal(previous.literal));
      case PString => r := Some(Literal(previous.literal));
      case PLiteral => r := Some(Literal(LiteralValue(previous)));
      case PVariable => r := Some(Variable(previous));
      case PGrouping =>
        var inner := Expression();
        if inner.None? {
          return None;
        }
        var close := Consume(RightParen);
        if close.None? {
          return None;
        }
        r := Some(Grouping(inner.value));
      case PUnary =>
        var right := ParsePrecedence(PrecUnary);
        if right.None? {
          return None;
        }
        r := Some(Unary(previous, right.value));
    }

    /** The infix rule functions: `binary`, `assign`, `call`. */
    method Infix(f: InfixFn, left: Expr) returns (r: Option<Expr>)
      requires Cursor(tokens, current) && 1 <= current
      modifies this
      ensures Agrees(Parsing.Infix(tokens, old(current), f, left), r, current)
      decreases |tokens| - current, 5
    {
      var operator := tokens[current - 1];
      match f
      case IBinary =>
        var level := OpLevel(operator.kind);
        if Successor(level).None? {
          // `values()[ordinal + 1]` is out of range
          return None;
        }
        var right := ParsePrecedence(Successor(level).value);
        if right.None? {
          return None;
        }
        r := Some(Binary(left, operator, right.value));
      case IAssign =>
        if !left.Variable? {
          return None;
        }
        var value := ParsePrecedence(PrecAssignment);
        if value.None? {
          return None;
        }
        r := Some(Assign(left.name, value.value));
      case ICall =>
        var arguments := [];
        if !Check(RightParen) {
          var args := Arguments();
          if args.None? {
            return None;
          }
          arguments := args.value;
        }
        var paren := Consume(RightParen);
        if paren.None? {
          return None;
        }
        r := Some(Call(left, paren.value, arguments));
    }

    /** The `do ... while (match(COMMA))` loop of `call`. */
    method Arguments() returns (r: Option<seq<Expr>>)
      requires Cursor(tokens, current)
      modifies this
      ensures Agrees(Parsing.Arguments(tokens, old(current), []), r, current)
      decreases |tokens| - current, 4
    {
      var arguments: seq<Expr> := [];
      ghost var goal := Parsing.Arguments(tokens, current, []);
      while true
        invariant Cursor(tokens, current) && old(current) <= current
        invariant forall a :: a in arguments ==> Tight(a, PrecAssignment)
        invariant Parsing.Arguments(tokens, current, arguments) == goal
        decreases |tokens| - current
      {
        var arg := Expression();
        if arg.None? {
          return None;
        }
        arguments := arguments + [arg.value];
        var comma := Match(Comma);
        if !comma {
          return Some(arguments);
        }
      }
    }

    // ------------------------------------------------------------ statements

    /** `synchronize`: skip to just after a `;` or just before a statement keyword. */
    method Synchronize()
      requires Cursor(tokens, current)
      modifies this
      ensures current == Parsing.Synchronize(tokens, old(current))
    {
      Advance();
      while !IsAtEnd()
        invariant Cursor(tokens, current) && (1 <= current || IsAtEnd())
        invariant SyncLoop(tokens, current) == Parsing.Synchronize(tokens, old(current))
        decreases |tokens| - current
      {
        if tokens[current - 1].kind == Semicolon {
          return;
        }
        if tokens[current].kind in SyncKinds {
          return;
        }
        Advance();
      }
    }

    method Declaration() returns (r: Option<Stmt>)
      requires Cursor(tokens, current)
      modifies this
      ensures Agrees(Parsing.Declaration(tokens, old(current)), r, current)
      decreases |tokens| - current, 1
    {
      var m := Match(KwVar);
      if m {
        r := VarDeclaration();
        return;
      }
      m := Match(KwWhile);
      if m {
        r := WhileStatement();
        return;
      }
      m := Match(KwPrint);
      if m {
        r := PrintStatement();
        return;
      }
      m := Match(KwIf);
      if m {
        r := IfStatement();
        return;
      }
      m := Match(KwInput);
      if m {
        r := InputStatement();
        return;
      }
      m := Match(KwSwitch);
      if m {
        r := SwitchStatement();
        return;
      }
      m := Match(KwBreak);
      if m {
        r := BreakStatement();
        return;
      }
      r := ExpressionStatement();
    }

    method IfStatement() returns (r: Option<Stmt>)
      requires Cursor(tokens, current)
      modifies this
      ensures Agrees(Parsing.IfStatement(tokens, old(current)), r, current)
      decreases |tokens| - current, 0
    {
      var open := Consume(LeftParen);
      if open.None? {
        return None;
      }
      var condition := Expression();
      if condition.None? {
        return None;
      }
      var close := Consume(RightParen);
      if close.None? {
        return None;
      }
      var thenBranch := StatementOrBlock();
      if thenBranch.None? {
        return None;
      }
      r := ElseBranch(condition.value, thenBranch.value);
    }

    /** The `if (match(ELSE))` tail of `ifStatement`. */
    method ElseBranch(condition: Expr, thenBranch: Stmt) returns (r: Option<Stmt>)
      requires Cursor(tokens, current)
      modifies this
      ensures Agrees(Parsing.ElseBranch(tokens, old(current), condition, thenBranch), r, current)
      decreases |tokens| - current, 3
    {
      ElseBranchCases(tokens, current, condition, thenBranch);
      var m := Match(KwElse);
      if m {
        var elseBranch := StatementOrBlock();
        r := if elseBranch.Some? then Some(If(condition, thenBranch, elseBranch)) else None;
      } else {
        r := Some(If(condition, thenBranch, None));
      }
    }

    /** `statementBlocoOuSimples`. */
    method StatementOrBlock() returns (r: Option<Stmt>)
      requires Cursor(tokens, current)
      modifies this
      ensures Agrees(Parsing.StatementOrBlock(tokens, old(current)), r, current)
      decreases |tokens| - current, 2
    {
      var m := Match(LeftBrace);
      if m {
        r := Block();
      } else {
        r := Declaration();
      }
    }

    method InputStatement() returns (r: Option<Stmt>)
      requires Cursor(tokens, current)
      modifies this
      ensures Agrees(Parsing.InputStatement(tokens, old(current)), r, current)
    {
      var name := Consume(Tokens.Identifier);
      if name.None? {
        return None;
      }
      var semi := Consume(Semicolon);
      if semi.None? {
        return None;
      }
      r := Some(Input(name.value));
    }

    method Block() returns (r: Option<Stmt>)
      requires Cursor(tokens, current)
      modifies this
      ensures Agrees(Parsing.Block(tokens, old(current)), r, current)
      decreases |tokens| - current, 3
    {
      var statements: seq<Stmt> := [];
      ghost var goal := BlockBody(tokens, current, []);
      while !Check(RightBrace) && !IsAtEnd()
        invariant Cursor(tokens, current) && old(current) <= current
        invariant BlockBody(tokens, current, statements) == goal
        decreases |tokens| - current
      {
        var s := Declaration();
        if s.None? {
          return None;
        }
        statements := statements + [s.value];
      }
      var close := Consume(RightBrace);
      if close.None? {
        return None;
      }
      r := Some(Stmt.Block(statements));
    }

    method WhileStatement() returns (r: Option<Stmt>)
      requires Cursor(tokens, current)
      modifies this
      ensures Agrees(Parsing.WhileStatement(tokens, old(current)), r, current)
      decreases |tokens| - current, 0
    {
      var open := Consume(LeftParen);
      if open.None? {
        return None;
      }
      var condition := Expression();
      if condition.None? {
        return None;
      }
      var close := Consume(RightParen);
      if close.None? {
        return None;
      }
      var brace := Consume(LeftBrace);
      if brace.None? {
        return None;
      }
      var body := Block();
      if body.None? {
        return None;
      }
      r := Some(While(condition.value, body.value));
    }

    method SwitchStatement() returns (r: Option<Stmt>)
      requires Cursor(tokens, current)
      modifies this
      ensures Agrees(Parsing.SwitchStatement(tokens, old(current)), r, current)
      decreases |tokens| - current, 0
    {
      var scrutinee := Expression();
      if scrutinee.None? {
        return None;
      }
      var brace := Consume(LeftBrace);
      if brace.None? {
        return None;
      }
      var arms := Arms();
      if arms.None? {
        return None;
      }
      var close := Consume(RightBrace);
      if close.None? {
        return None;
      }
      r := Some(Switch(scrutinee.value, arms.value.0, arms.value.1));
    }

    /** The loop of `switchStatement`, over the `CASO` and `PADRAO` arms. */
    method Arms() returns (r: Option<(seq<Case>, Option<Case>)>)
      requires Cursor(tokens, current)
      modifies this
      ensures Agrees(SwitchArms(tokens, old(current), [], None), r, current)
      decreases |tokens| - current, 1
    {
      var cases: seq<Case> := [];
      var defaultCase: Option<Case> := None;
      ghost var goal := SwitchArms(tokens, current, [], None);
      while !Check(RightBrace) && !IsAtEnd()
        invariant Cursor(tokens, current) && old(current) <= current
        invariant SwitchArms(tokens, current, cases, defaultCase) == goal
        decreases |tokens| - current
      {
        var ok;
        ok, cases, defaultCase := Arm(cases, defaultCase);
        if !ok {
          return None;
        }
      }
      r := Some((cases, defaultCase));
    }

    /** One turn of the loop of `switchStatement`: a `CASO` arm, a `PADRAO` arm, or a throw. */
    method Arm(cases: seq<Case>, defaultCase: Option<Case>) returns (ok: bool, cases': seq<Case>, defaultCase': Option<Case>)
      requires Cursor(tokens, current) && !Check(RightBrace) && !IsAtEnd()
      modifies this
      ensures Cursor(tokens, current) && old(current) <= current
      ensures !ok ==> SwitchArms(tokens, old(current), cases, defaultCase) == Thrown(current)
      ensures ok ==> old(current) < current &&
                     SwitchArms(tokens, old(current), cases, defaultCase) == SwitchArms(tokens, current, cases', defaultCase')
      decreases |tokens| - current, 0
    {
      cases', defaultCase' := cases, defaultCase;
      var isCase := Match(KwCase);
      if isCase {
        var arm := CaseBody();
        if arm.None? {
          return false, cases', defaultCase';
        }
        return true, cases + [arm.value], defaultCase;
      }
      var isDefault := Match(KwDefault);
      if !isDefault {
        return false, cases', defaultCase';
      }
      var arm := DefaultBody();
      if arm.None? {
        return false, cases', defaultCase';
      }
      return true, cases, Some(arm.value);
    }

    /** The rest of a `CASO value:` arm; `CASO` is already consumed. */
    method CaseBody() returns (r: Option<Case>)
      requires Cursor(tokens, current)
      modifies this
      ensures Agrees(Parsing.CaseBody(tokens, old(current)), r, current)
      decreases |tokens| - current, 0
    {
      var value := Expression();
      if value.None? {
        return None;
      }
      var colon := Consume(Colon);
      if colon.None? {
        return None;
      }
      var body := StatementOrBlock();
      if body.None? {
        return None;
      }
      r := Some(Case(Some(value.value), body.value));
    }

    /** The rest of a `PADRAO:` arm; `PADRAO` is already consumed. */
    method DefaultBody() returns (r: Option<Case>)
      requires Cursor(tokens, current)
      modifies this
      ensures Agrees(Parsing.DefaultBody(tokens, old(current)), r, current)
      decreases |tokens| - current, 0
    {
      var colon := Consume(Colon);
      if colon.None? {
        return None;
      }
      var body := StatementOrBlock();
      if body.None? {
        return None;
      }
      r := Some(Case(None, body.value));
    }

    method BreakStatement() returns (r: Option<Stmt>)
      requires Cursor(tokens, current)
      modifies this
      ensures Agrees(Parsing.BreakStatement(tokens, old(current)), r, current)
    {
      var semi := Consume(Semicolon);
      if semi.None? {
        return None;
      }
      r := Some(Break);
    }

    method VarDeclaration() returns (r: Option<Stmt>)
      requires Cursor(tokens, current)
      modifies this
      ensures Agrees(Parsing.VarDeclaration(tokens, old(current)), r, current)
    {
      var name := Consume(Tokens.Identifier);
      if name.None? {
        return None;
      }
      var initializer: Option<Expr> := None;
      var m := Match(Equal);
      if m {
        var init := Expression();
        if init.None? {
          return None;
        }
        initializer := Some(init.value);
      }
      var semi := Consume(Semicolon);
      if semi.None? {
        return None;
      }
      r := Some(Var(None, name.value, initializer));
    }

    method PrintStatement() returns (r: Option<Stmt>)
      requires Cursor(tokens, current)
      modifies this
      ensures Agrees(Parsing.PrintStatement(tokens, old(current)), r, current)
    {
      var value := Expression();
      if value.None? {
        return None;
      }
      var semi := Consume(Semicolon);
      if semi.None? {
        return None;
      }
      r := Some(Print(value.value));
    }

    method ExpressionStatement() returns (r: Option<Stmt>)
      requires Cursor(tokens, current)
      modifies this
      ensures Agrees(Parsing.ExpressionStatement(tokens, old(current)), r, current)
    {
      var e := Expression();
      if e.None? {
        return None;
      }
      var semi := Consume(Semicolon);
      if semi.None? {
        return None;
      }
      r := Some(Stmt.Expression(e.value));
    }

    /** `parse`: declarations up to `EOF`; one that throws is dropped and the cursor resynchronised. */
    method Parse() returns (statements: seq<Stmt>)
      requires Cursor(tokens, current)
      modifies this
      ensures statements == ParseFrom(tokens, old(current), [])
    {
      statements := [];
      while !IsAtEnd()
        invariant Cursor(tokens, current)
        invariant ParseFrom(tokens, current, statements) == ParseFrom(tokens, old(current), [])
        decreases |tokens| - current
      {
        var s := Declaration();
        if s.Some? {
          statements := statements + [s.value];
        } else {
          Synchronize();
        }
      }
    }
  }
}
