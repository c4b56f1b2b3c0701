/**
 * The tree-walking interpreter of `Semantica.Interpreter`, as functions from
 * an interpreter state to a completion.
 *
 * Java's `Environment` objects are kept in an arena: `frames[k]` is the k-th
 * environment ever created, its `enclosing` field is the index of its parent,
 * and the interpreter's `environment` field is the index `env`. A closure
 * keeps the index of the environment it was created in, so two functions
 * created in the same scope share it exactly as the Java objects do.
 *
 * Java's exceptions become completions: `Breaking` is a `BreakException`,
 * `Returning` a `ReturnException`, `Thrown` any other `RuntimeException`.
 * What the model does not compute (double arithmetic, `Double.toString`,
 * increment and decrement, which have no visitor here) ends evaluation with
 * `Unmodelled`, and a `fuel` bound stands in for unbounded recursion.
 */
module Interpreting {
  import opened Wrappers
  import opened JavaInt
  import opened Values
  import opened Tokens
  import opened Ast
  import Scanning
  import Parsing

  /** One `Environment`: its own bindings and the index of the one it encloses. */
  datatype Frame = Frame(values: map<string, Value>, enclosing: Option<nat>)

  /** A `LoxFunction`: its declaration's parameters and body, and its closure. */
  datatype Closure = Closure(parameters: seq<Token>, body: seq<Stmt>, closure: nat)

  /**
   * Every environment created so far, the current one, every function
   * created so far (a `Callable` value is an index here), what was printed
   * on standard output, and the input lines not yet read.
   */
  datatype State = State(frames: seq<Frame>, env: nat, functions: seq<Closure>, output: seq<string>, input: seq<string>)

  /** How a Java evaluation ends when it does not return normally. */
  datatype Signal =
    | Breaking
    | Returning(value: Value)
    | Thrown
    | Unmodelled(feature: string)
    | OutOfFuel

  /** A completion: a value and the state after it, or a signal and the state it left. */
  datatype Flow<+T> = Normal(value: T, st: State) | Abrupt(signal: Signal, st: State) {
    predicate IsFailure() { Abrupt? }
    function PropagateFailure<U>(): Flow<U>
      requires Abrupt?
    {
      Abrupt(signal, st)
    }
    function Extract(): (T, State)
      requires Normal?
    {
      (value, st)
    }
  }

  /** The outcome of an operator applied to values. */
  datatype Computed = Computed(v: Value) | Fails(signal: Signal)

  /** The current environment exists. */
  predicate Valid(st: State)
  {
    st.env < |st.frames|
  }

  /** What every evaluation keeps: the current environment, and every environment created before. */
  predicate Kept(st: State, st': State)
  {
    st'.env == st.env && |st.frames| <= |st'.frames|
  }

  /**
   * No environment that existed before, other than `except`, gained or lost a
   * binding: only `define` adds one, and only in the current environment.
   */
  predicate Scoped(st: State, st': State, except: int)
  {
    |st.frames| <= |st'.frames|
    && forall k :: 0 <= k < |st.frames| && k != except ==> st'.frames[k].values.Keys == st.frames[k].values.Keys
  }

  /** A `ReturnException` never escapes an expression: calls catch it. */
  predicate NoReturn<T>(r: Flow<T>)
  {
    r.Abrupt? ==> !r.signal.Returning?
  }

  /** A fresh interpreter: only the global environment, nothing printed. */
  function Initial(input: seq<string>): (r: State)
    ensures Valid(r) && |r.frames| == 1 && r.frames[0].enclosing.None?
  {
    State([Frame(map[], None)], 0, [], [], input)
  }

  // ---------------------------------------------------------------- Environment

  /**
   * `get`: the binding of the nearest environment, from `i` outward, that
   * has one; `None` when no environment binds the name (Java throws). The
   * interpreter only ever makes a frame enclose an older one, which is what
   * the guard `p < i` follows.
   */
  function Lookup(frames: seq<Frame>, i: nat, name: string): Option<Value>
    decreases i
  {
    if i >= |frames| then None
    else if name in frames[i].values then Some(frames[i].values[name])
    else match frames[i].enclosing
      case None => None
      case Some(p) => if p < i then Lookup(frames, p, name) else None
  }

  /** The environment `assign` writes into: the nearest, from `i` outward, that binds `name`. */
  function Owner(frames: seq<Frame>, i: nat, name: string): (r: Option<nat>)
    ensures r.Some? ==> r.value <= i && r.value < |frames| && name in frames[r.value].values
    decreases i
  {
    if i >= |frames| then None
    else if name in frames[i].values then Some(i)
    else match frames[i].enclosing
      case None => None
      case Some(p) => if p < i then Owner(frames, p, name) else None
  }

  /** `define`: bind `name` in environment `i` alone, overwriting any binding there. */
  function DefineAt(frames: seq<Frame>, i: nat, name: string, v: Value): (r: seq<Frame>)
    requires i < |frames|
    ensures |r| == |frames|
  {
    frames[i := frames[i].(values := frames[i].values[name := v])]
  }

  /** `assign`: overwrite the nearest binding of `name`; `None` when there is none (Java throws). */
  function AssignAt(frames: seq<Frame>, i: nat, name: string, v: Value): (r: Option<seq<Frame>>)
    ensures r.Some? ==> |r.value| == |frames|
    ensures r.Some? ==> forall k :: 0 <= k < |frames| ==> r.value[k].values.Keys == frames[k].values.Keys
  {
    match Owner(frames, i, name)
    case None => None
    case Some(k) => Some(DefineAt(frames, k, name, v))
  }

  /** `define` in the current environment. */
  function Define(st: State, name: string, v: Value): (r: State)
    requires Valid(st)
    ensures Valid(r) && Kept(st, r) && |r.frames| == |st.frames| && Scoped(st, r, st.env)
  {
    st.(frames := DefineAt(st.frames, st.env, name, v))
  }

  /** The new environment `call` creates: each parameter bound, in order, to its argument. */
  function Bind(values: map<string, Value>, parameters: seq<Token>, arguments: seq<Value>): map<string, Value>
    requires |parameters| == |arguments|
    decreases |parameters|
  {
    if parameters == [] then values
    else Bind(values[parameters[0].lexeme := arguments[0]], parameters[1..], arguments[1..])
  }

  // ---------------------------------------------------------------- operators

  /** `visitBinaryExpr` once both operands are evaluated. */
  function BinaryOp(kind: TokenType, a: Value, b: Value): (r: Computed)
    ensures a.Int? && b.Int? && InRange(a.i) && InRange(b.i) && r.Computed? && r.v.Int? ==> InRange(r.v.i)
  {
    if (a.Int? && !InRange(a.i)) || (b.Int? && !InRange(b.i)) then Fails(Unmodelled("an int outside 32 bits"))
    else match kind
      case Plus =>
        if a.Int? && b.Int? then Computed(Int(Wrap32(a.i + b.i)))
        else if a.IsNumber() && b.IsNumber() then Fails(Unmodelled("double arithmetic"))
        else if a.Str? && b.Str? then Computed(Str(a.s + b.s))
        else Fails(Thrown)
      case Minus =>
        if a.Int? && b.Int? then Computed(Int(Wrap32(a.i - b.i)))
        else if a.IsNumber() && b.IsNumber() then Fails(Unmodelled("double arithmetic"))
        else Fails(Thrown)
      case Star =>
        if a.Int? && b.Int? then Computed(Int(Wrap32(a.i * b.i)))
        else if a.IsNumber() && b.IsNumber() then Fails(Unmodelled("double arithmetic"))
        else Fails(Thrown)
      case Slash =>
        if !a.IsNumber() || !b.IsNumber() then Fails(Thrown)
        else if b.Int? && b.i == 0 then Fails(Thrown)
        else Fails(Unmodelled("double division"))
      case Less => Compare(kind, a, b)
      case Greater => Compare(kind, a, b)
      case LessEqual => Compare(kind, a, b)
      case GreaterEqual => Compare(kind, a, b)
      case EqualEqual => if IsEqual(a, b).None? then Fails(Unmodelled("double equality")) else Computed(Bool(IsEqual(a, b).value))
      case BangEqual => if IsEqual(a, b).None? then Fails(Unmodelled("double equality")) else Computed(Bool(!IsEqual(a, b).value))
      case Percent =>
        if a.Int? && b.Int? then
          if b.i == 0 then Fails(Thrown)
          else
            assert Abs(TruncRem(a.i, b.i)) < Abs(b.i);
            Computed(Int(TruncRem(a.i, b.i)))
        else if a.IsNumber() && b.IsNumber() then Fails(Unmodelled("double arithmetic"))
        else Fails(Thrown)
      case _ => Fails(Thrown)
  }

  /** `toDouble(left) < toDouble(right)` and the other comparisons; exact on two ints. */
  function Compare(kind: TokenType, a: Value, b: Value): (r: Computed)
    ensures r.Computed? ==> r.v.Bool?
  {
    if !a.IsNumber() || !b.IsNumber() then Fails(Thrown)
    else if a.Float? || b.Float? then Fails(Unmodelled("double comparison"))
    else Computed(Bool(
      match kind
      case Less => a.i < b.i
      case Greater => a.i > b.i
      case LessEqual => a.i <= b.i
      case _ => a.i >= b.i))
  }

  /** `visitUnaryExpr` once the operand is evaluated. */
  function UnaryOp(kind: TokenType, v: Value): (r: Computed)
    ensures v.Int? && InRange(v.i) && r.Computed? && r.v.Int? ==> InRange(r.v.i)
  {
    match kind
    case Minus =>
      if v.Int? then (if InRange(v.i) then Computed(Int(Wrap32(-v.i))) else Fails(Unmodelled("an int outside 32 bits")))
      else if v.Float? then Fails(Unmodelled("double negation"))
      else Fails(Thrown)
    case Bang => Computed(Bool(!IsTruthy(v)))
    case _ => Fails(Thrown)
  }

  /** An operator's outcome as a completion in state `st`. */
  function Lift(c: Computed, st: State): (r: Flow<Value>)
    ensures r.st == st
  {
    match c
    case Computed(v) => Normal(v, st)
    case Fails(signal) => Abrupt(signal, st)
  }

  /** The `catch (BreakException e)` around a loop body or a switch arm. */
  function CatchBreak(r: Flow<()>): (r': Flow<()>)
    ensures r'.st == r.st
    ensures r'.Abrupt? <==> r.Abrupt? && r.signal != Breaking
    ensures r'.Abrupt? ==> r' == r
  {
    if r.Abrupt? && r.signal == Breaking then Normal((), r.st) else r
  }

  // ---------------------------------------------------------------- expressions

  /** `evaluate`: one step of fuel per node. */
  function Evaluate(e: Expr, st: State, fuel: nat): (r: Flow<Value>)
    requires Valid(st)
    ensures Kept(st, r.st) && NoReturn(r) && Scoped(st, r.st, -1)
    decreases fuel, 0
  {
    if fuel == 0 then Abrupt(OutOfFuel, st)
    else AcceptExpr(e, st, fuel - 1)
  }

  /** `expr.accept(this)`: the visitor for the expression's form. */
  function AcceptExpr(e: Expr, st: State, fuel: nat): (r: Flow<Value>)
    requires Valid(st)
    ensures Kept(st, r.st) && NoReturn(r) && Scoped(st, r.st, -1)
    decreases fuel, 5
  {
    match e
      case Literal(v) => Normal(v, st)
      case Grouping(inner) => Evaluate(inner, st, fuel)
      case Variable(name) => VisitVariable(name, st)
      case Assign(name, value) => VisitAssign(name, value, st, fuel)
      case Unary(op, right) => VisitUnary(op, right, st, fuel)
      case Binary(left, op, right) => VisitBinary(left, op, right, st, fuel)
      case Call(callee, _, arguments) => VisitCall(callee, arguments, st, fuel)
      case Incremento(_, _, _) => Abrupt(Unmodelled("increment has no visitor"), st)
      case Decremento(_, _, _) => Abrupt(Unmodelled("decrement has no visitor"), st)
  }

  /** `visitVariableExpr`: the nearest binding, or an error. */
  function VisitVariable(name: Token, st: State): (r: Flow<Value>)
    ensures r.st == st
    ensures r.Normal? <==> Lookup(st.frames, st.env, name.lexeme).Some?
    ensures r.Abrupt? ==> r.signal == Thrown
  {
    match Lookup(st.frames, st.env, name.lexeme)
    case None => Abrupt(Thrown, st)
    case Some(v) => Normal(v, st)
  }

  /** `visitAssignExpr`: the value, after it is stored in the nearest binding. */
  function VisitAssign(name: Token, value: Expr, st: State, fuel: nat): (r: Flow<Value>)
    requires Valid(st)
    ensures Kept(st, r.st) && NoReturn(r) && Scoped(st, r.st, -1)
    decreases fuel, 4
  {
    var v :- Evaluate(value, st, fuel);
    match AssignAt(v.1.frames, v.1.env, name.lexeme, v.0)
    case None => Abrupt(Thrown, v.1)
    case Some(frames) => Normal(v.0, v.1.(frames := frames))
  }

  /** `visitUnaryExpr`. */
  function VisitUnary(op: Token, right: Expr, st: State, fuel: nat): (r: Flow<Value>)
    requires Valid(st)
    ensures Kept(st, r.st) && NoReturn(r) && Scoped(st, r.st, -1)
    decreases fuel, 4
  {
    var v :- Evaluate(right, st, fuel);
    Lift(UnaryOp(op.kind, v.0), v.1)
  }

  /** `visitBinaryExpr`: the left operand, then the right, then the operator. */
  function VisitBinary(left: Expr, op: Token, right: Expr, st: State, fuel: nat): (r: Flow<Value>)
    requires Valid(st)
    ensures Kept(st, r.st) && NoReturn(r) && Scoped(st, r.st, -1)
    decreases fuel, 4
  {
    var a :- Evaluate(left, st, fuel);
    var b :- Evaluate(right, a.1, fuel);
    Lift(BinaryOp(op.kind, a.0, b.0), b.1)
  }

  /** `visitCallExpr`: the callee must be a function before any argument is evaluated. */
  function VisitCall(callee: Expr, arguments: seq<Expr>, st: State, fuel: nat): (r: Flow<Value>)
    requires Valid(st)
    ensures Kept(st, r.st) && NoReturn(r) && Scoped(st, r.st, -1)
    decreases fuel, 4
  {
    var c :- Evaluate(callee, st, fuel);
    if !c.0.Callable? then Abrupt(Thrown, c.1)
    else
      var args :- EvaluateArguments(arguments, 0, [], c.1, fuel);
      CallFunction(c.0.handle, args.0, args.1, fuel)
  }

  /** The argument loop of `visitCallExpr`: left to right, appending to `acc`. */
  function EvaluateArguments(arguments: seq<Expr>, i: nat, acc: seq<Value>, st: State, fuel: nat): (r: Flow<seq<Value>>)
    requires Valid(st) && i <= |arguments|
    ensures Kept(st, r.st) && NoReturn(r) && Scoped(st, r.st, -1)
    ensures r.Normal? ==> |r.value| == |acc| + |arguments| - i
    decreases fuel, 1, |arguments| - i
  {
    if i == |arguments| then Normal(acc, st)
    else
      var v :- Evaluate(arguments[i], st, fuel);
      EvaluateArguments(arguments, i + 1, acc + [v.0], v.1, fuel)
  }

  /**
   * `LoxFunction.call`, after the arity check of `visitCallExpr`: a new
   * environment enclosing the closure, the parameters bound in it, the body
   * run there; the `Return` value, or `null`.
   */
  function CallFunction(handle: nat, arguments: seq<Value>, st: State, fuel: nat): (r: Flow<Value>)
    requires Valid(st)
    ensures Kept(st, r.st) && NoReturn(r) && Scoped(st, r.st, -1)
    decreases fuel, 3
  {
    if handle >= |st.functions| then Abrupt(Unmodelled("a function the interpreter did not create"), st)
    else
      var f := st.functions[handle];
      if |arguments| != |f.parameters| then Abrupt(Thrown, st)
      else
        var frame := Frame(Bind(map[], f.parameters, arguments), Some(f.closure));
        match ExecuteBlock(f.body, st.(frames := st.frames + [frame]), |st.frames|, fuel)
        case Normal(_, s) => Normal(Nil, s)
        case Abrupt(signal, s) => if signal.Returning? then Normal(signal.value, s) else Abrupt(signal, s)
  }

  // ---------------------------------------------------------------- statements

  /** `execute`: one step of fuel per statement. */
  function Execute(s: Stmt, st: State, fuel: nat): (r: Flow<()>)
    requires Valid(st)
    ensures Kept(st, r.st) && Scoped(st, r.st, st.env)
    decreases fuel, 0
  {
    if fuel == 0 then Abrupt(OutOfFuel, st)
    else Accept(s, st, fuel - 1)
  }

  /** `stmt.accept(this)`: the visitor for the statement's form. */
  function Accept(s: Stmt, st: State, fuel: nat): (r: Flow<()>)
    requires Valid(st)
    ensures Kept(st, r.st) && Scoped(st, r.st, st.env)
    decreases fuel, 5
  {
    match s
      case Print(e) => VisitPrint(e, st, fuel)
      case Var(_, name, initializer) => VisitVar(name, initializer, st, fuel)
      case Function(name, parameters, body) => Normal((), VisitFunction(name, parameters, body, st))
      case Return(_, value) => VisitReturn(value, st, fuel)
      case If(condition, thenBranch, elseBranch) => VisitIf(condition, thenBranch, elseBranch, st, fuel)
      case Block(statements) => VisitBlock(statements, st, fuel)
      case Expression(e) => VisitExpression(e, st, fuel)
      case While(condition, body) => WhileLoop(condition, body, st, fuel)
      case Switch(e, cases, defaultCase) => VisitSwitch(e, cases, defaultCase, st, fuel)
      case Input(name) => VisitInput(name, st, fuel)
      case Break => Abrupt(Breaking, st)
  }

  /** `visitPrintStmt`: the stringified value and a line feed. */
  function VisitPrint(e: Expr, st: State, fuel: nat): (r: Flow<()>)
    requires Valid(st)
    ensures Kept(st, r.st) && Scoped(st, r.st, st.env)
    decreases fuel, 4
  {
    var v :- Evaluate(e, st, fuel);
    match Stringify(v.0)
    case None => Abrupt(Unmodelled("toString of a double or a function"), v.1)
    case Some(text) => Normal((), v.1.(output := v.1.output + [text + "\n"]))
  }

  /** `visitVarStmt`: define the initialiser's value, or `null`. */
  function VisitVar(name: Token, initializer: Option<Expr>, st: State, fuel: nat): (r: Flow<()>)
    requires Valid(st)
    ensures Kept(st, r.st) && Scoped(st, r.st, st.env)
    decreases fuel, 4
  {
    if initializer.None? then Normal((), Define(st, name.lexeme, Nil))
    else
      var v :- Evaluate(initializer.value, st, fuel);
      Normal((), Define(v.1, name.lexeme, v.0))
  }

  /** `visitFunctionStmt`: a new function closing over the current environment, defined there. */
  function VisitFunction(name: Token, parameters: seq<Token>, body: seq<Stmt>, st: State): (r: State)
    requires Valid(st)
    ensures Valid(r) && Kept(st, r) && Scoped(st, r, st.env)
    ensures |r.functions| == |st.functions| + 1 && r.functions[|st.functions|] == Closure(parameters, body, st.env)
    ensures Lookup(r.frames, r.env, name.lexeme) == Some(Callable(|st.functions|))
  {
    var h := |st.functions|;
    Define(st.(functions := st.functions + [Closure(parameters, body, st.env)]), name.lexeme, Callable(h))
  }

  /** `visitReturnStmt`: always ends abruptly, carrying the value or `null`. */
  function VisitReturn(value: Option<Expr>, st: State, fuel: nat): (r: Flow<()>)
    requires Valid(st)
    ensures Kept(st, r.st) && r.Abrupt? && Scoped(st, r.st, st.env)
    decreases fuel, 4
  {
    if value.None? then Abrupt(Returning(Nil), st)
    else
      var v :- Evaluate(value.value, st, fuel);
      Abrupt(Returning(v.0), v.1)
  }

  /** `visitIfStmt`. */
  function VisitIf(condition: Expr, thenBranch: Stmt, elseBranch: Option<Stmt>, st: State, fuel: nat): (r: Flow<()>)
    requires Valid(st)
    ensures Kept(st, r.st) && Scoped(st, r.st, st.env)
    decreases fuel, 4
  {
    var c :- Evaluate(condition, st, fuel);
    if IsTruthy(c.0) then Execute(thenBranch, c.1, fuel)
    else if elseBranch.Some? then Execute(elseBranch.value, c.1, fuel)
    else Normal((), c.1)
  }

  /** `visitExpressionStmt`: evaluate, discard the value. */
  function VisitExpression(e: Expr, st: State, fuel: nat): (r: Flow<()>)
    requires Valid(st)
    ensures Kept(st, r.st) && Scoped(st, r.st, st.env)
    decreases fuel, 4
  {
    var v :- Evaluate(e, st, fuel);
    Normal((), v.1)
  }

  /** `visitBlockStmt`: the statements in a new environment enclosing the current one. */
  function VisitBlock(statements: seq<Stmt>, st: State, fuel: nat): (r: Flow<()>)
    requires Valid(st)
    ensures Kept(st, r.st) && Scoped(st, r.st, -1)
    decreases fuel, 4
  {
    ExecuteBlock(statements, st.(frames := st.frames + [Frame(map[], Some(st.env))]), |st.frames|, fuel)
  }

  /**
   * `executeBlock`: run the statements with `inner` as the current
   * environment, then restore the previous one however they ended.
   */
  function ExecuteBlock(statements: seq<Stmt>, st: State, inner: nat, fuel: nat): (r: Flow<()>)
    requires Valid(st) && inner < |st.frames|
    ensures Kept(st, r.st) && Scoped(st, r.st, inner)
    decreases fuel, 2
  {
    match ExecuteStatements(statements, 0, st.(env := inner), fuel)
    case Normal(u, s) => Normal(u, s.(env := st.env))
    case Abrupt(signal, s) => Abrupt(signal, s.(env := st.env))
  }

  /** The `for` loop over statements in `executeBlock` and `interpret`: stop at the first abrupt one. */
  function ExecuteStatements(statements: seq<Stmt>, i: nat, st: State, fuel: nat): (r: Flow<()>)
    requires Valid(st) && i <= |statements|
    ensures Kept(st, r.st) && Scoped(st, r.st, st.env)
    decreases fuel, 1, |statements| - i
  {
    if i == |statements| then Normal((), st)
    else
      var s :- Execute(statements[i], st, fuel);
      ExecuteStatements(statements, i + 1, s.1, fuel)
  }

  /**
   * `visitWhileStmt`: turn after turn while the condition is truthy; each
   * turn spends one step of fuel.
   */
  function WhileLoop(condition: Expr, body: Stmt, st: State, fuel: nat): (r: Flow<()>)
    requires Valid(st)
    ensures Kept(st, r.st) && Scoped(st, r.st, st.env)
    decreases fuel, 2
  {
    if fuel == 0 then Abrupt(OutOfFuel, st)
    else
      var t :- WhileTurn(condition, body, st, fuel);
      if t.0 then WhileLoop(condition, body, t.1, fuel - 1) else Normal((), t.1)
  }

  /**
   * One turn of the loop: evaluate the condition and, when it is truthy, run
   * the body; whether the loop goes on. A `break` in the body ends this loop,
   * normally, and no other.
   */
  function WhileTurn(condition: Expr, body: Stmt, st: State, fuel: nat): (r: Flow<bool>)
    requires Valid(st)
    ensures Kept(st, r.st) && Scoped(st, r.st, st.env)
    decreases fuel, 1
  {
    var c :- Evaluate(condition, st, fuel);
    if !IsTruthy(c.0) then Normal(false, c.1)
    else match Execute(body, c.1, fuel)
      case Normal(_, s) => Normal(true, s)
      case Abrupt(signal, s) => if signal == Breaking then Normal(false, s) else Abrupt(signal, s)
  }

  /** `visitSwitchStmt`: the scrutinee once, then the arms. */
  function VisitSwitch(e: Expr, cases: seq<Case>, defaultCase: Option<Case>, st: State, fuel: nat): (r: Flow<()>)
    requires Valid(st)
    ensures Kept(st, r.st) && Scoped(st, r.st, st.env)
    decreases fuel, 4
  {
    var v :- Evaluate(e, st, fuel);
    SwitchCases(v.0, cases, 0, defaultCase, v.1, fuel)
  }

  /**
   * The case loop of `visitSwitchStmt` from case `i`: evaluate each case
   * value in order; the first one equal to `v` runs its statement and ends
   * the switch; the default runs only when the loop reaches the end. A
   * missing case value is a `NullPointerException`.
   */
  function SwitchCases(v: Value, cases: seq<Case>, i: nat, defaultCase: Option<Case>, st: State, fuel: nat): (r: Flow<()>)
    requires Valid(st) && i <= |cases|
    ensures Kept(st, r.st) && Scoped(st, r.st, st.env)
    decreases fuel, 1, |cases| - i
  {
    if i == |cases| then
      if defaultCase.None? then Normal((), st)
      else CatchBreak(Execute(defaultCase.value.stmt, st, fuel))
    else if cases[i].value.None? then Abrupt(Thrown, st)
    else
      var c :- Evaluate(cases[i].value.value, st, fuel);
      if IsEqual(v, c.0).None? then Abrupt(Unmodelled("double equality"), c.1)
      else if IsEqual(v, c.0).value then CatchBreak(Execute(cases[i].stmt, c.1, fuel))
      else SwitchCases(v, cases, i + 1, defaultCase, c.1, fuel)
  }

  /**
   * `visitInputStmt`: print the prompt and read a line (none left is a
   * `NoSuchElementException`); try running `name = line;` as a program;
   * when no statement of it completed, assign the line read as an int, a
   * double or else a string.
   */
  function VisitInput(name: Token, st: State, fuel: nat): (r: Flow<()>)
    requires Valid(st)
    ensures Kept(st, r.st) && Scoped(st, r.st, st.env)
    decreases fuel, 4
  {
    var prompted := st.(output := st.output + ["> "]);
    if prompted.input == [] then Abrupt(Thrown, prompted)
    else
      var line := prompted.input[0];
      var read := prompted.(input := prompted.input[1..]);
      var ran :- RunLine(name.lexeme + " = " + line + ";", read, fuel);
      if ran.0 then Normal((), ran.1)
      else match InputValue(line)
        case None => Abrupt(Unmodelled("a double read from input"), ran.1)
        case Some(value) =>
          match AssignAt(ran.1.frames, ran.1.env, name.lexeme, value)
          case None => Abrupt(Thrown, ran.1)
          case Some(frames) => Normal((), ran.1.(frames := frames))
  }

  /**
   * The `try` block of `visitInputStmt`: scan and parse `program`, run its
   * statements; whether one completed. A scan error ends it at once.
   */
  function RunLine(program: string, st: State, fuel: nat): (r: Flow<bool>)
    requires Valid(st)
    ensures Kept(st, r.st) && Scoped(st, r.st, st.env)
    decreases fuel, 3
  {
    match Scanning.ScanTokens(program)
    case Err(_) => Normal(false, st)
    case Ok(tokens) =>
      Scanning.ScanTokensShape(program);
      RunStatements(Parsing.Parse(tokens), 0, false, st, fuel)
  }

  /**
   * The loop of that `try` block: `completed` (Java's `atribuiu`) becomes true once a statement
   * completes; `catch (Exception exc)` swallows an error, a `break` or a
   * `return` and keeps the state they left.
   */
  function RunStatements(statements: seq<Stmt>, i: nat, completed: bool, st: State, fuel: nat): (r: Flow<bool>)
    requires Valid(st) && i <= |statements|
    ensures Kept(st, r.st) && Scoped(st, r.st, st.env)
    ensures r.Abrupt? ==> r.signal.Unmodelled? || r.signal.OutOfFuel?
    decreases fuel, 1, |statements| - i
  {
    if i == |statements| then Normal(completed, st)
    else match Execute(statements[i], st, fuel)
      case Normal(_, s) => RunStatements(statements, i + 1, true, s, fuel)
      case Abrupt(signal, s) =>
        if signal.Unmodelled? || signal.OutOfFuel? then Abrupt(signal, s) else Normal(completed, s)
  }

  /**
   * `interpret`: run the program in a fresh interpreter until a statement
   * ends abruptly; an error, a stray `break` or a stray `return` ends the run
   * there (its message goes to standard error).
   */
  function Interpret(statements: seq<Stmt>, input: seq<string>, fuel: nat): (r: Flow<()>)
    ensures r.st.env == 0 && |r.st.frames| >= 1
  {
    ExecuteStatements(statements, 0, Initial(input), fuel)
  }

  // ---------------------------------------------------------------- properties

  /** An int as Java holds it: every `Int` within 32 bits. */
  predicate JavaValue(v: Value)
  {
    v.Int? ==> InRange(v.i)
  }

  /**
   * `get` finds the binding of the environment `assign` would write, and
   * fails exactly when no environment from `i` outward binds the name.
   */
  lemma {:induction false} LookupFindsOwner(frames: seq<Frame>, i: nat, name: string)
    ensures Lookup(frames, i, name).None? <==> Owner(frames, i, name).None?
    ensures Owner(frames, i, name).Some? ==>
              Lookup(frames, i, name) == Some(frames[Owner(frames, i, name).value].values[name])
    decreases i
  {
    if i < |frames| && name !in frames[i].values && frames[i].enclosing.Some? && frames[i].enclosing.value < i {
      LookupFindsOwner(frames, frames[i].enclosing.value, name);
    }
  }

  /** `get` searches outward: a name the environment does not bind is looked up in its parent. */
  lemma LookupSearchesOutward(frames: seq<Frame>, i: nat, name: string)
    requires i < |frames| && name !in frames[i].values
    requires frames[i].enclosing.Some? && frames[i].enclosing.value < i
    ensures Lookup(frames, i, name) == Lookup(frames, frames[i].enclosing.value, name)
  {
  }

  /**
   * `define` writes into the given environment alone: `get` from there sees
   * the new value, shadowing any outer binding, and every other environment
   * and every other name there are as they were.
   */
  lemma DefineShadows(frames: seq<Frame>, i: nat, name: string, v: Value)
    requires i < |frames|
    ensures Lookup(DefineAt(frames, i, name, v), i, name) == Some(v)
    ensures forall k :: 0 <= k < |frames| && k != i ==> DefineAt(frames, i, name, v)[k] == frames[k]
    ensures forall n :: n in frames[i].values && n != name ==>
              n in DefineAt(frames, i, name, v)[i].values && DefineAt(frames, i, name, v)[i].values[n] == frames[i].values[n]
    ensures DefineAt(frames, i, name, v)[i].enclosing == frames[i].enclosing
  {
  }

  /**
   * `assign` never creates a binding: it fails exactly when `get` would, and
   * otherwise every environment keeps the names and the parent it had.
   */
  lemma AssignNeverDefines(frames: seq<Frame>, i: nat, name: string, v: Value)
    ensures AssignAt(frames, i, name, v).None? <==> Lookup(frames, i, name).None?
    ensures AssignAt(frames, i, name, v).Some? ==>
              forall k :: 0 <= k < |frames| ==>
                AssignAt(frames, i, name, v).value[k].values.Keys == frames[k].values.Keys
                && AssignAt(frames, i, name, v).value[k].enclosing == frames[k].enclosing
  {
    LookupFindsOwner(frames, i, name);
  }

  /** After `assign`, `get` from the same environment returns the value assigned. */
  lemma {:induction false} LookupAfterAssign(frames: seq<Frame>, i: nat, name: string, v: Value)
    requires AssignAt(frames, i, name, v).Some?
    ensures Lookup(AssignAt(frames, i, name, v).value, i, name) == Some(v)
    decreases i
  {
    var k := Owner(frames, i, name).value;
    var after := AssignAt(frames, i, name, v).value;
    if k != i {
      var p := frames[i].enclosing.value;
      assert after[i] == frames[i];
      LookupAfterAssign(frames, p, name, v);
    }
  }

  /** `assign` changes no other name: every other lookup is as before. */
  lemma {:induction false} AssignKeepsOtherNames(frames: seq<Frame>, i: nat, name: string, v: Value, j: nat, other: string)
    requires AssignAt(frames, i, name, v).Some? && other != name
    ensures Lookup(AssignAt(frames, i, name, v).value, j, other) == Lookup(frames, j, other)
    decreases j
  {
    var after := AssignAt(frames, i, name, v).value;
    if j < |frames| && other !in frames[j].values && frames[j].enclosing.Some? && frames[j].enclosing.value < j {
      assert other !in after[j].values;
      AssignKeepsOtherNames(frames, i, name, v, frames[j].enclosing.value, other);
    }
  }

  /** With distinct parameter names, each parameter is bound to its own argument. */
  lemma {:induction false} BindEachParameter(values: map<string, Value>, parameters: seq<Token>, arguments: seq<Value>, j: nat)
    requires |parameters| == |arguments| && j < |parameters|
    requires forall a, b :: 0 <= a < b < |parameters| ==> parameters[a].lexeme != parameters[b].lexeme
    ensures parameters[j].lexeme in Bind(values, parameters, arguments)
    ensures Bind(values, parameters, arguments)[parameters[j].lexeme] == arguments[j]
    decreases |parameters|
  {
    if j > 0 {
      BindEachParameter(values[parameters[0].lexeme := arguments[0]], parameters[1..], arguments[1..], j - 1);
    } else {
      BindKeeps(values[parameters[0].lexeme := arguments[0]], parameters[1..], arguments[1..], parameters[0].lexeme);
    }
  }

  /** Binding leaves alone a name that is not a parameter. */
  lemma {:induction false} BindKeeps(values: map<string, Value>, parameters: seq<Token>, arguments: seq<Value>, name: string)
    requires |parameters| == |arguments| && name in values
    requires forall a :: 0 <= a < |parameters| ==> parameters[a].lexeme != name
    ensures name in Bind(values, parameters, arguments) && Bind(values, parameters, arguments)[name] == values[name]
    decreases |parameters|
  {
    if parameters != [] {
      assert parameters[0].lexeme != name;
      BindKeeps(values[parameters[0].lexeme := arguments[0]], parameters[1..], arguments[1..], name);
    }
  }

  /**
   * `+` and `-` on two ints give the 32-bit two's-complement result: the
   * exact one whenever it fits.
   */
  lemma AddSubtractWrap(kind: TokenType, a: int, b: int)
    requires kind == Plus || kind == Minus
    requires InRange(a) && InRange(b)
    ensures var exact := if kind == Plus then a + b else a - b;
            var r := BinaryOp(kind, Int(a), Int(b));
            && r.Computed? && r.v.Int? && InRange(r.v.i)
            && (r.v.i - exact) % Modulus == 0
            && (InRange(exact) ==> r.v.i == exact)
  {
    if kind == Plus {
      var exact := a + b;
      assert BinaryOp(Plus, Int(a), Int(b)) == Computed(Int(Wrap32(exact)));
    } else {
      var exact := a - b;
      assert BinaryOp(Minus, Int(a), Int(b)) == Computed(Int(Wrap32(exact)));
    }
  }

  /** `*` on two ints gives the 32-bit two's-complement product: the exact one whenever it fits. */
  lemma MultiplyWraps(a: int, b: int)
    requires InRange(a) && InRange(b)
    ensures var r := BinaryOp(Star, Int(a), Int(b));
            && r.Computed? && r.v.Int? && InRange(r.v.i)
            && (r.v.i - a * b) % Modulus == 0
            && (InRange(a * b) ==> r.v.i == a * b)
  {
    var exact := a * b;
    assert BinaryOp(Star, Int(a), Int(b)) == Computed(Int(Wrap32(exact)));
  }

  /** `+` on two strings concatenates them. */
  lemma PlusConcatenatesStrings(a: string, b: string)
    ensures BinaryOp(Plus, Str(a), Str(b)) == Computed(Str(a + b))
  {
  }

  /** `+` of a string and a number, either way round, is an error. */
  lemma PlusRejectsMixed(a: Value, b: Value)
    requires JavaValue(a) && JavaValue(b)
    requires (a.Str? && b.IsNumber()) || (a.IsNumber() && b.Str?)
    ensures BinaryOp(Plus, a, b) == Fails(Thrown)
  {
  }

  /** `-`, `*`, `/`, `%` and the comparisons on anything but two numbers are errors. */
  lemma ArithmeticNeedsNumbers(kind: TokenType, a: Value, b: Value)
    requires kind in {Minus, Star, Slash, Percent, Less, Greater, LessEqual, GreaterEqual}
    requires JavaValue(a) && JavaValue(b) && (!a.IsNumber() || !b.IsNumber())
    ensures BinaryOp(kind, a, b) == Fails(Thrown)
  {
  }

  /** Division by a zero int is an error, whatever the number divided; so is `%` of two ints by zero. */
  lemma DivisionByZeroFails(a: Value)
    requires JavaValue(a) && a.IsNumber()
    ensures BinaryOp(Slash, a, Int(0)) == Fails(Thrown)
    ensures a.Int? ==> BinaryOp(Percent, a, Int(0)) == Fails(Thrown)
  {
  }

  /** `%` on two ints keeps the dividend's sign and is smaller than the divisor, as Java's is. */
  lemma RemainderOfInts(a: int, b: int)
    requires InRange(a) && InRange(b) && b != 0
    ensures var r := BinaryOp(Percent, Int(a), Int(b));
            && r.Computed? && r.v.Int?
            && a == TruncDiv(a, b) * b + r.v.i
            && Abs(r.v.i) < Abs(b)
            && (a >= 0 ==> r.v.i >= 0) && (a <= 0 ==> r.v.i <= 0)
  {
  }

  /** The comparisons on two ints are the exact integer comparisons. */
  lemma ComparesInts(a: int, b: int)
    requires InRange(a) && InRange(b)
    ensures BinaryOp(Less, Int(a), Int(b)) == Computed(Bool(a < b))
    ensures BinaryOp(Greater, Int(a), Int(b)) == Computed(Bool(a > b))
    ensures BinaryOp(LessEqual, Int(a), Int(b)) == Computed(Bool(a <= b))
    ensures BinaryOp(GreaterEqual, Int(a), Int(b)) == Computed(Bool(a >= b))
  {
  }

  /**
   * `==` and `!=` never throw: they are value equality and its negation,
   * except on two doubles written differently, whose numeric values the
   * model does not compute.
   */
  lemma EqualityIsValueEquality(a: Value, b: Value)
    requires JavaValue(a) && JavaValue(b)
    ensures !(a.Float? && b.Float? && a.text != b.text) ==> BinaryOp(EqualEqual, a, b) == Computed(Bool(a == b))
    ensures !(a.Float? && b.Float? && a.text != b.text) ==> BinaryOp(BangEqual, a, b) == Computed(Bool(a != b))
    ensures a.Float? && b.Float? && a.text != b.text ==>
              BinaryOp(EqualEqual, a, b) == BinaryOp(BangEqual, a, b) == Fails(Unmodelled("double equality"))
  {
    IsEqualIsValueEquality(a, b);
  }

  /** `!` is the negation of truthiness; `-` on an int wraps, so the least int is its own negation. */
  lemma UnaryOperators(v: Value)
    ensures UnaryOp(Bang, v) == Computed(Bool(v == Nil || v == Bool(false)))
    ensures v.Int? && InRange(v.i) && v.i != MinInt ==> UnaryOp(Minus, v) == Computed(Int(-v.i))
    ensures UnaryOp(Minus, Int(MinInt)) == Computed(Int(MinInt))
    ensures v.Str? || v.Bool? || v == Nil ==> UnaryOp(Minus, v) == Fails(Thrown)
  {
  }

  /** Calling something that is not a function is an error before any argument is evaluated. */
  lemma CallRejectsNonFunction(callee: Expr, arguments: seq<Expr>, st: State, fuel: nat)
    requires Valid(st)
    requires Evaluate(callee, st, fuel).Normal? && !Evaluate(callee, st, fuel).value.Callable?
    ensures VisitCall(callee, arguments, st, fuel) == Abrupt(Thrown, Evaluate(callee, st, fuel).st)
  {
  }

  /** A call with the wrong number of arguments is an error, and the body never runs. */
  lemma CallChecksArity(handle: nat, arguments: seq<Value>, st: State, fuel: nat)
    requires Valid(st) && handle < |st.functions| && |arguments| != |st.functions[handle].parameters|
    ensures CallFunction(handle, arguments, st, fuel) == Abrupt(Thrown, st)
  {
  }

  /**
   * A call runs the body in one new environment, enclosing the closure and
   * binding the parameters, and returns the `Return` value, or `null` when
   * the body completes; a `break` or an error passes through.
   */
  lemma CallReturns(handle: nat, arguments: seq<Value>, st: State, fuel: nat)
    requires Valid(st) && handle < |st.functions| && |arguments| == |st.functions[handle].parameters|
    ensures var f := st.functions[handle];
            var frame := Frame(Bind(map[], f.parameters, arguments), Some(f.closure));
            var body := ExecuteBlock(f.body, st.(frames := st.frames + [frame]), |st.frames|, fuel);
            var r := CallFunction(handle, arguments, st, fuel);
            && r.st == body.st
            && (body.Normal? ==> r.Normal? && r.value == Nil)
            && (body.Abrupt? && body.signal.Returning? ==> r.Normal? && r.value == body.signal.value)
            && (body.Abrupt? && !body.signal.Returning? ==> r.Abrupt? && r.signal == body.signal)
  {
  }

  /** A `while` whose condition is falsy runs nothing more. */
  lemma WhileStopsWhenFalsy(condition: Expr, body: Stmt, st: State, fuel: nat)
    requires Valid(st) && fuel > 0
    requires Evaluate(condition, st, fuel).Normal? && !IsTruthy(Evaluate(condition, st, fuel).value)
    ensures WhileLoop(condition, body, st, fuel) == Normal((), Evaluate(condition, st, fuel).st)
  {
  }

  /** A `while` whose condition is truthy runs the body once and evaluates the condition again. */
  lemma WhileRepeats(condition: Expr, body: Stmt, st: State, fuel: nat)
    requires Valid(st) && fuel > 0
    requires Evaluate(condition, st, fuel).Normal? && IsTruthy(Evaluate(condition, st, fuel).value)
    requires Execute(body, Evaluate(condition, st, fuel).st, fuel).Normal?
    ensures WhileLoop(condition, body, st, fuel)
         == WhileLoop(condition, body, Execute(body, Evaluate(condition, st, fuel).st, fuel).st, fuel - 1)
  {
  }

  /** A `break` in the body ends this loop, which completes normally: an enclosing loop goes on. */
  lemma BreakEndsInnermostLoop(condition: Expr, body: Stmt, st: State, fuel: nat)
    requires Valid(st) && fuel > 0
    requires Evaluate(condition, st, fuel).Normal? && IsTruthy(Evaluate(condition, st, fuel).value)
    requires Execute(body, Evaluate(condition, st, fuel).st, fuel).Abrupt?
    requires Execute(body, Evaluate(condition, st, fuel).st, fuel).signal == Breaking
    ensures WhileLoop(condition, body, st, fuel) == Normal((), Execute(body, Evaluate(condition, st, fuel).st, fuel).st)
  {
  }

  /** Every case from `i` up to `j` has a literal value. */
  predicate LiteralCases(cases: seq<Case>, i: nat, j: nat)
    requires i <= j <= |cases|
  {
    forall k :: i <= k < j ==> cases[k].value.Some? && cases[k].value.value.Literal?
  }

  /** The literal value of a case that has one. */
  function CaseLiteral(c: Case): Value
    requires c.value.Some? && c.value.value.Literal?
  {
    c.value.value.literal
  }

  /**
   * With literal case values, the switch runs the statement of the first
   * case equal to the scrutinee and nothing else: no later case, no default,
   * no fall-through, and a `break` there ends only the switch.
   */
  lemma {:induction false} SwitchRunsFirstMatch(v: Value, cases: seq<Case>, i: nat, j: nat, defaultCase: Option<Case>, st: State, fuel: nat)
    requires Valid(st) && fuel > 0 && i <= j < |cases|
    requires LiteralCases(cases, i, j + 1)
    requires forall k :: i <= k < j ==> IsEqual(v, CaseLiteral(cases[k])) == Some(false)
    requires IsEqual(v, CaseLiteral(cases[j])) == Some(true)
    ensures SwitchCases(v, cases, i, defaultCase, st, fuel) == CatchBreak(Execute(cases[j].stmt, st, fuel))
    decreases j - i
  {
    assert cases[i].value.Some? && cases[i].value.value.Literal?;
    assert Evaluate(cases[i].value.value, st, fuel) == Normal(CaseLiteral(cases[i]), st);
    if i < j {
      SwitchRunsFirstMatch(v, cases, i + 1, j, defaultCase, st, fuel);
    }
  }

  /**
   * With literal case values, a case whose equality with the scrutinee the
   * model cannot decide (two doubles written differently) stops the switch
   * there, before its statement, any later case or the default runs.
   */
  lemma {:induction false} SwitchStopsWhenUndecided(v: Value, cases: seq<Case>, i: nat, j: nat, defaultCase: Option<Case>, st: State, fuel: nat)
    requires Valid(st) && fuel > 0 && i <= j < |cases|
    requires LiteralCases(cases, i, j + 1)
    requires forall k :: i <= k < j ==> IsEqual(v, CaseLiteral(cases[k])) == Some(false)
    requires IsEqual(v, CaseLiteral(cases[j])).None?
    ensures SwitchCases(v, cases, i, defaultCase, st, fuel) == Abrupt(Unmodelled("double equality"), st)
    decreases j - i
  {
    assert cases[i].value.Some? && cases[i].value.value.Literal?;
    assert Evaluate(cases[i].value.value, st, fuel) == Normal(CaseLiteral(cases[i]), st);
    if i < j {
      SwitchStopsWhenUndecided(v, cases, i + 1, j, defaultCase, st, fuel);
    }
  }

  /** With literal case values, the default runs exactly when no case equals the scrutinee. */
  lemma {:induction false} SwitchDefaultWithoutMatch(v: Value, cases: seq<Case>, i: nat, defaultCase: Option<Case>, st: State, fuel: nat)
    requires Valid(st) && fuel > 0 && i <= |cases|
    requires LiteralCases(cases, i, |cases|)
    requires forall k :: i <= k < |cases| ==> IsEqual(v, CaseLiteral(cases[k])) == Some(false)
    ensures SwitchCases(v, cases, i, defaultCase, st, fuel)
         == if defaultCase.None? then Normal((), st) else CatchBreak(Execute(defaultCase.value.stmt, st, fuel))
    decreases |cases| - i
  {
    if i < |cases| {
      assert cases[i].value.Some? && cases[i].value.value.Literal?;
      assert Evaluate(cases[i].value.value, st, fuel) == Normal(CaseLiteral(cases[i]), st);
      SwitchDefaultWithoutMatch(v, cases, i + 1, defaultCase, st, fuel);
    }
  }

  /** A block leaks nothing: no environment that existed before it gains or loses a binding. */
  lemma BlockDeclarationsStayInside(statements: seq<Stmt>, st: State, fuel: nat)
    requires Valid(st)
    ensures var r := Execute(Block(statements), st, fuel + 1);
            && r.st.env == st.env
            && forall k :: 0 <= k < |st.frames| ==> r.st.frames[k].values.Keys == st.frames[k].values.Keys
  {
  }

  /** Statements run in order and the first that ends abruptly ends the sequence, in the state it left. */
  lemma StatementsStopAtFirstAbrupt(statements: seq<Stmt>, i: nat, st: State, fuel: nat)
    requires Valid(st) && i < |statements|
    requires Execute(statements[i], st, fuel).Abrupt?
    ensures ExecuteStatements(statements, i, st, fuel) == Execute(statements[i], st, fuel)
  {
  }

  /** `input` with no line left to read fails after printing the prompt. */
  lemma InputNeedsALine(name: Token, st: State, fuel: nat)
    requires Valid(st) && st.input == []
    ensures VisitInput(name, st, fuel) == Abrupt(Thrown, st.(output := st.output + ["> "]))
  {
  }

  /**
   * When no statement of `name = line;` completed, an int line is assigned
   * as that int: `get` then sees it.
   */
  lemma InputFallsBackToInt(name: Token, st: State, fuel: nat)
    requires Valid(st) && st.input != []
    requires var read := st.(output := st.output + ["> "], input := st.input[1..]);
             var ran := RunLine(name.lexeme + " = " + st.input[0] + ";", read, fuel);
             && ran.Normal? && !ran.value && Lookup(ran.st.frames, ran.st.env, name.lexeme).Some?
    requires ParseInt(st.input[0]).Some?
    ensures VisitInput(name, st, fuel).Normal?
    ensures var r := VisitInput(name, st, fuel);
            Lookup(r.st.frames, r.st.env, name.lexeme) == Some(Int(ParseInt(st.input[0]).value))
  {
    var read := st.(output := st.output + ["> "], input := st.input[1..]);
    var ran := RunLine(name.lexeme + " = " + st.input[0] + ";", read, fuel);
    var value := Int(ParseInt(st.input[0]).value);
    AssignNeverDefines(ran.st.frames, ran.st.env, name.lexeme, value);
    LookupAfterAssign(ran.st.frames, ran.st.env, name.lexeme, value);
  }
}
