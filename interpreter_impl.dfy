/**
 * The interpreter as the Java class has it: the `environment` field is
 * swapped by `executeBlock` and restored on every exit, `define` and
 * `assign` update environments in place, `print` appends to standard
 * output, and the `while`, `switch`, argument and statement loops are
 * loops. Each method is proved to end, and to leave the fields, as the
 * function of `Interpreting` with the same name says, so every lemma about
 * those functions holds of this class. A Java exception is a `Raised`
 * completion, returned at once by every caller until one catches it.
 */
module InterpreterImpl {
  import opened Wrappers
  import opened Values
  import opened Tokens
  import opened Ast
  import opened Interpreting
  import Scanning
  import Parsing
  import ScannerImpl
  import ParserImpl

  /** How a method ends: with a value, or with a Java exception in flight. */
  datatype Completion<T> = Done(value: T) | Raised(signal: Signal)

  /** A method's outcome and the fields it left agree with the function that specifies it. */
  predicate Matches<T(==)>(f: Flow<T>, c: Completion<T>, st: State)
  {
    st == f.st
    && (f.Normal? ==> c == Done(f.value))
    && (f.Abrupt? ==> c == Raised(f.signal))
  }

  class Interpreter {
    /** Every `Environment` object created so far, by creation order. */
    var frames: seq<Frame>
    /** The `environment` field, as an index into `frames`. */
    var environment: nat
    /** Every `LoxFunction` created so far. */
    var functions: seq<Closure>
    var output: seq<string>
    var input: seq<string>

    /** The fields `Interpreting` describes. */
    function Snapshot(): State
      reads this
    {
      State(frames, environment, functions, output, input)
    }

    predicate Valid()
      reads this
    {
      Interpreting.Valid(Snapshot())
    }

    /** A new interpreter: the global environment only. */
    constructor(input: seq<string>)
      ensures Snapshot() == Initial(input) && Valid()
    {
      frames := [Frame(map[], None)];
      environment := 0;
      functions := [];
      output := [];
      this.input := input;
    }

    /** `environment.define`. */
    method Define(name: string, v: Value)
      requires Valid()
      modifies this
      ensures Snapshot() == Interpreting.Define(old(Snapshot()), name, v)
    {
      frames := frames[environment := frames[environment].(values := frames[environment].values[name := v])];
    }

    /** `environment.get`: the loop outward through the enclosing environments. */
    method Get(name: string) returns (r: Completion<Value>)
      requires Valid()
      ensures r == (match Lookup(frames, environment, name)
                    case Some(v) => Done(v)
                    case None => Raised(Thrown))
    {
      var i: nat := environment;
      while true
        invariant i < |frames|
        invariant Lookup(frames, i, name) == Lookup(frames, environment, name)
        decreases i
      {
        if name in frames[i].values {
          return Done(frames[i].values[name]);
        }
        match frames[i].enclosing
        case None =>
          return Raised(Thrown);
        case Some(p) =>
          if p >= i {
            return Raised(Thrown);
          }
          i := p;
      }
    }

    /** `environment.assign`: find the nearest environment that binds `name`, then overwrite there. */
    method Assign(name: string, v: Value) returns (assignedTo: bool)
      requires Valid()
      modifies this
      ensures var a := AssignAt(old(frames), old(environment), name, v);
              && (assignedTo <==> a.Some?)
              && (a.Some? ==> frames == a.value)
              && (a.None? ==> frames == old(frames))
      ensures environment == old(environment) && functions == old(functions)
      ensures output == old(output) && input == old(input)
    {
      var i: nat := environment;
      while true
        invariant i < |frames|
        invariant Owner(frames, i, name) == Owner(frames, environment, name)
        decreases i
      {
        if name in frames[i].values {
          frames := DefineAt(frames, i, name, v);
          return true;
        }
        match frames[i].enclosing
        case None =>
          return false;
        case Some(p) =>
          if p >= i {
            return false;
          }
          i := p;
      }
    }

    // -------------------------------------------------------------- expressions

    /** `evaluate`. */
    method Evaluate(e: Expr, fuel: nat) returns (r: Completion<Value>)
      requires Valid()
      modifies this
      ensures Matches(Interpreting.Evaluate(e, old(Snapshot()), fuel), r, Snapshot())
      decreases fuel, 0
    {
      if fuel == 0 {
        return Raised(OutOfFuel);
      }
      match e
      case Literal(v) =>
        r := Done(v);
      case Grouping(inner) =>
        r := Evaluate(inner, fuel - 1);
      case Variable(name) =>
        r := Get(name.lexeme);
      case Assign(name, value) =>
        r := VisitAssign(name, value, fuel - 1);
      case Unary(op, right) =>
        r := VisitUnary(op, right, fuel - 1);
      case Binary(left, op, right) =>
        r := VisitBinary(left, op, right, fuel - 1);
      case Call(callee, _, arguments) =>
        r := VisitCall(callee, arguments, fuel - 1);
      case Incremento(_, _, _) =>
        r := Raised(Unmodelled("increment has no visitor"));
      case Decremento(_, _, _) =>
        r := Raised(Unmodelled("decrement has no visitor"));
    }

    /** `visitAssignExpr`. */
    method VisitAssign(name: Token, value: Expr, fuel: nat) returns (r: Completion<Value>)
      requires Valid()
      modifies this
      ensures Matches(Interpreting.VisitAssign(name, value, old(Snapshot()), fuel), r, Snapshot())
      decreases fuel, 4
    {
      r := Evaluate(value, fuel);
      if r.Raised? {
        return;
      }
      var ok := Assign(name.lexeme, r.value);
      if !ok {
        r := Raised(Thrown);
      }
    }

    /** `visitUnaryExpr`. */
    method VisitUnary(op: Token, right: Expr, fuel: nat) returns (r: Completion<Value>)
      requires Valid()
      modifies this
      ensures Matches(Interpreting.VisitUnary(op, right, old(Snapshot()), fuel), r, Snapshot())
      decreases fuel, 4
    {
      var v := Evaluate(right, fuel);
      if v.Raised? {
        return v;
      }
      match UnaryOp(op.kind, v.value)
      case Computed(result) =>
        r := Done(result);
      case Fails(signal) =>
        r := Raised(signal);
    }

    /** `visitBinaryExpr`: left operand, right operand, operator. */
    method VisitBinary(left: Expr, op: Token, right: Expr, fuel: nat) returns (r: Completion<Value>)
      requires Valid()
      modifies this
      ensures Matches(Interpreting.VisitBinary(left, op, right, old(Snapshot()), fuel), r, Snapshot())
      decreases fuel, 4
    {
      var a := Evaluate(left, fuel);
      if a.Raised? {
        return a;
      }
      var b := Evaluate(right, fuel);
      if b.Raised? {
        return b;
      }
      match BinaryOp(op.kind, a.value, b.value)
      case Computed(result) =>
        r := Done(result);
      case Fails(signal) =>
        r := Raised(signal);
    }

    /** `visitCallExpr`. */
    method VisitCall(callee: Expr, arguments: seq<Expr>, fuel: nat) returns (r: Completion<Value>)
      requires Valid()
      modifies this
      ensures Matches(Interpreting.VisitCall(callee, arguments, old(Snapshot()), fuel), r, Snapshot())
      decreases fuel, 4
    {
      var c := Evaluate(callee, fuel);
      if c.Raised? {
        return c;
      }
      if !c.value.Callable? {
        return Raised(Thrown);
      }
      var args := EvaluateArguments(arguments, fuel);
      if args.Raised? {
        return Raised(args.signal);
      }
      r := CallFunction(c.value.handle, args.value, fuel);
    }

    /** The argument loop of `visitCallExpr`. */
    method EvaluateArguments(arguments: seq<Expr>, fuel: nat) returns (r: Completion<seq<Value>>)
      requires Valid()
      modifies this
      ensures Matches(Interpreting.EvaluateArguments(arguments, 0, [], old(Snapshot()), fuel), r, Snapshot())
      decreases fuel, 1
    {
      ghost var goal := Interpreting.EvaluateArguments(arguments, 0, [], Snapshot(), fuel);
      var values: seq<Value> := [];
      var i := 0;
      while i < |arguments|
        invariant i <= |arguments| && Valid()
        invariant Interpreting.EvaluateArguments(arguments, i, values, Snapshot(), fuel) == goal
        decreases |arguments| - i
      {
        var v := Evaluate(arguments[i], fuel);
        if v.Raised? {
          return Raised(v.signal);
        }
        values := values + [v.value];
        i := i + 1;
      }
      r := Done(values);
    }

    /** `LoxFunction.call`: bind the parameters in a new environment enclosing the closure, run the body. */
    method CallFunction(handle: nat, arguments: seq<Value>, fuel: nat) returns (r: Completion<Value>)
      requires Valid()
      modifies this
      ensures Matches(Interpreting.CallFunction(handle, arguments, old(Snapshot()), fuel), r, Snapshot())
      decreases fuel, 3
    {
      if handle >= |functions| {
        return Raised(Unmodelled("a function the interpreter did not create"));
      }
      var f := functions[handle];
      if |arguments| != |f.parameters| {
        return Raised(Thrown);
      }
      var values: map<string, Value> := map[];
      for i := 0 to |f.parameters|
        invariant Bind(values, f.parameters[i..], arguments[i..]) == Bind(map[], f.parameters, arguments)
      {
        assert f.parameters[i..][1..] == f.parameters[i + 1..];
        assert arguments[i..][1..] == arguments[i + 1..];
        values := values[f.parameters[i].lexeme := arguments[i]];
      }
      var inner := |frames|;
      frames := frames + [Frame(values, Some(f.closure))];
      var body := ExecuteBlock(f.body, inner, fuel);
      match body
      case Done(_) =>
        r := Done(Nil);
      case Raised(signal) =>
        r := if signal.Returning? then Done(signal.value) else Raised(signal);
    }

    // -------------------------------------------------------------- statements

    /** `execute`. */
    method Execute(s: Stmt, fuel: nat) returns (r: Completion<()>)
      requires Valid()
      modifies this
      ensures Matches(Interpreting.Execute(s, old(Snapshot()), fuel), r, Snapshot())
      decreases fuel, 0
    {
      if fuel == 0 {
        return Raised(OutOfFuel);
      }
      match s
      case Print(e) =>
        r := VisitPrint(e, fuel - 1);
      case Var(_, name, initializer) =>
        r := VisitVar(name, initializer, fuel - 1);
      case Function(name, parameters, body) =>
        VisitFunction(name, parameters, body);
        r := Done(());
      case Return(_, value) =>
        r := VisitReturn(value, fuel - 1);
      case If(condition, thenBranch, elseBranch) =>
        r := VisitIf(condition, thenBranch, elseBranch, fuel - 1);
      case Block(statements) =>
        r := VisitBlock(statements, fuel - 1);
      case Expression(e) =>
        r := VisitExpression(e, fuel - 1);
      case While(condition, body) =>
        r := WhileLoop(condition, body, fuel - 1);
      case Switch(e, cases, defaultCase) =>
        r := VisitSwitch(e, cases, defaultCase, fuel - 1);
      case Input(name) =>
        r := VisitInput(name, fuel - 1);
      case Break =>
        r := Raised(Breaking);
    }

    /** `visitPrintStmt`. */
    method VisitPrint(e: Expr, fuel: nat) returns (r: Completion<()>)
      requires Valid()
      modifies this
      ensures Matches(Interpreting.VisitPrint(e, old(Snapshot()), fuel), r, Snapshot())
      decreases fuel, 4
    {
      var v := Evaluate(e, fuel);
      if v.Raised? {
        return Raised(v.signal);
      }
      match Stringify(v.value)
      case None =>
        r := Raised(Unmodelled("toString of a double or a function"));
      case Some(text) =>
        output := output + [text + "\n"];
        r := Done(());
    }

    /** `visitVarStmt`. */
    method VisitVar(name: Token, initializer: Option<Expr>, fuel: nat) returns (r: Completion<()>)
      requires Valid()
      modifies this
      ensures Matches(Interpreting.VisitVar(name, initializer, old(Snapshot()), fuel), r, Snapshot())
      decreases fuel, 4
    {
      var value := Nil;
      if initializer.Some? {
        var v := Evaluate(initializer.value, fuel);
        if v.Raised? {
          return Raised(v.signal);
        }
        value := v.value;
      }
      Define(name.lexeme, value);
      r := Done(());
    }

    /** `visitFunctionStmt`. */
    method VisitFunction(name: Token, parameters: seq<Token>, body: seq<Stmt>)
      requires Valid()
      modifies this
      ensures Snapshot() == Interpreting.VisitFunction(name, parameters, body, old(Snapshot()))
    {
      var handle := |functions|;
      functions := functions + [Closure(parameters, body, environment)];
      Define(name.lexeme, Callable(handle));
    }

    /** `visitReturnStmt`: always raises. */
    method VisitReturn(value: Option<Expr>, fuel: nat) returns (r: Completion<()>)
      requires Valid()
      modifies this
      ensures Matches(Interpreting.VisitReturn(value, old(Snapshot()), fuel), r, Snapshot())
      decreases fuel, 4
    {
      if value.None? {
        return Raised(Returning(Nil));
      }
      var v := Evaluate(value.value, fuel);
      if v.Raised? {
        return Raised(v.signal);
      }
      r := Raised(Returning(v.value));
    }

    /** `visitIfStmt`. */
    method VisitIf(condition: Expr, thenBranch: Stmt, elseBranch: Option<Stmt>, fuel: nat) returns (r: Completion<()>)
      requires Valid()
      modifies this
      ensures Matches(Interpreting.VisitIf(condition, thenBranch, elseBranch, old(Snapshot()), fuel), r, Snapshot())
      decreases fuel, 4
    {
      var c := Evaluate(condition, fuel);
      if c.Raised? {
        return Raised(c.signal);
      }
      if IsTruthy(c.value) {
        r := Execute(thenBranch, fuel);
      } else if elseBranch.Some? {
        r := Execute(elseBranch.value, fuel);
      } else {
        r := Done(());
      }
    }

    /** `visitExpressionStmt`. */
    method VisitExpression(e: Expr, fuel: nat) returns (r: Completion<()>)
      requires Valid()
      modifies this
      ensures Matches(Interpreting.VisitExpression(e, old(Snapshot()), fuel), r, Snapshot())
      decreases fuel, 4
    {
      var v := Evaluate(e, fuel);
      r := if v.Raised? then Raised(v.signal) else Done(());
    }

    /** `visitBlockStmt`: a new environment enclosing the current one. */
    method VisitBlock(statements: seq<Stmt>, fuel: nat) returns (r: Completion<()>)
      requires Valid()
      modifies this
      ensures Matches(Interpreting.VisitBlock(statements, old(Snapshot()), fuel), r, Snapshot())
      decreases fuel, 4
    {
      var inner := |frames|;
      frames := frames + [Frame(map[], Some(environment))];
      r := ExecuteBlock(statements, inner, fuel);
    }

    /** `executeBlock`: swap the environment in, run the statements, swap the previous one back. */
    method ExecuteBlock(statements: seq<Stmt>, inner: nat, fuel: nat) returns (r: Completion<()>)
      requires Valid() && inner < |frames|
      modifies this
      ensures Matches(Interpreting.ExecuteBlock(statements, old(Snapshot()), inner, fuel), r, Snapshot())
      decreases fuel, 2
    {
      var previous := environment;
      environment := inner;
      r := ExecuteStatements(statements, fuel);
      environment := previous;
    }

    /** The statement loop of `executeBlock` and `interpret`. */
    method ExecuteStatements(statements: seq<Stmt>, fuel: nat) returns (r: Completion<()>)
      requires Valid()
      modifies this
      ensures Matches(Interpreting.ExecuteStatements(statements, 0, old(Snapshot()), fuel), r, Snapshot())
      decreases fuel, 1
    {
      ghost var goal := Interpreting.ExecuteStatements(statements, 0, Snapshot(), fuel);
      var i := 0;
      while i < |statements|
        invariant i <= |statements| && Valid()
        invariant Interpreting.ExecuteStatements(statements, i, Snapshot(), fuel) == goal
        decreases |statements| - i
      {
        var s := Execute(statements[i], fuel);
        if s.Raised? {
          return s;
        }
        i := i + 1;
      }
      r := Done(());
    }

    /** `visitWhileStmt`: one step of fuel per turn. */
    method WhileLoop(condition: Expr, body: Stmt, fuel: nat) returns (r: Completion<()>)
      requires Valid()
      modifies this
      ensures Matches(Interpreting.WhileLoop(condition, body, old(Snapshot()), fuel), r, Snapshot())
      decreases fuel, 2
    {
      ghost var goal := Interpreting.WhileLoop(condition, body, Snapshot(), fuel);
      var f: nat := fuel;
      while true
        invariant f <= fuel && Valid()
        invariant Interpreting.WhileLoop(condition, body, Snapshot(), f) == goal
        decreases f
      {
        if f == 0 {
          return Raised(OutOfFuel);
        }
        var goesOn := WhileTurn(condition, body, f);
        if goesOn.Raised? {
          return Raised(goesOn.signal);
        }
        if !goesOn.value {
          return Done(());
        }
        f := f - 1;
      }
    }

    /** One turn: the condition, then the body inside `try`; whether the loop goes on. */
    method WhileTurn(condition: Expr, body: Stmt, fuel: nat) returns (r: Completion<bool>)
      requires Valid()
      modifies this
      ensures Matches(Interpreting.WhileTurn(condition, body, old(Snapshot()), fuel), r, Snapshot())
      decreases fuel, 1
    {
      var c := Evaluate(condition, fuel);
      if c.Raised? {
        return Raised(c.signal);
      }
      if !IsTruthy(c.value) {
        return Done(false);
      }
      var b := Execute(body, fuel);
      if b.Raised? {
        r := if b.signal == Breaking then Done(false) else Raised(b.signal);
      } else {
        r := Done(true);
      }
    }

    /** `visitSwitchStmt`: the first equal case runs and ends the switch; the default only when none matched. */
    method VisitSwitch(e: Expr, cases: seq<Case>, defaultCase: Option<Case>, fuel: nat) returns (r: Completion<()>)
      requires Valid()
      modifies this
      ensures Matches(Interpreting.VisitSwitch(e, cases, defaultCase, old(Snapshot()), fuel), r, Snapshot())
      decreases fuel, 4
    {
      var v := Evaluate(e, fuel);
      if v.Raised? {
        return Raised(v.signal);
      }
      r := SwitchCases(v.value, cases, defaultCase, fuel);
    }

    /** The case loop of `visitSwitchStmt`, then the default arm. */
    method SwitchCases(v: Value, cases: seq<Case>, defaultCase: Option<Case>, fuel: nat) returns (r: Completion<()>)
      requires Valid()
      modifies this
      ensures Matches(Interpreting.SwitchCases(v, cases, 0, defaultCase, old(Snapshot()), fuel), r, Snapshot())
      decreases fuel, 2
    {
      ghost var goal := Interpreting.SwitchCases(v, cases, 0, defaultCase, Snapshot(), fuel);
      var i := 0;
      while i < |cases|
        invariant i <= |cases| && Valid()
        invariant Interpreting.SwitchCases(v, cases, i, defaultCase, Snapshot(), fuel) == goal
        decreases |cases| - i
      {
        if cases[i].value.None? {
          return Raised(Thrown);
        }
        var c := Evaluate(cases[i].value.value, fuel);
        if c.Raised? {
          return Raised(c.signal);
        }
        var equal := IsEqual(v, c.value);
        if equal.None? {
          return Raised(Unmodelled("double equality"));
        }
        if equal.value {
          var b := Execute(cases[i].stmt, fuel);
          return if b.Raised? && b.signal == Breaking then Done(()) else b;
        }
        i := i + 1;
      }
      if defaultCase.Some? {
        var b := Execute(defaultCase.value.stmt, fuel);
        r := if b.Raised? && b.signal == Breaking then Done(()) else b;
      } else {
        r := Done(());
      }
    }

    /** `visitInputStmt`. */
    method VisitInput(name: Token, fuel: nat) returns (r: Completion<()>)
      requires Valid()
      modifies this
      ensures Matches(Interpreting.VisitInput(name, old(Snapshot()), fuel), r, Snapshot())
      decreases fuel, 4
    {
      output := output + ["> "];
      if input == [] {
        return Raised(Thrown);
      }
      var line := input[0];
      input := input[1..];
      var ran := RunLine(name.lexeme + " = " + line + ";", fuel);
      if ran.Raised? {
        return Raised(ran.signal);
      }
      if ran.value {
        return Done(());
      }
      match InputValue(line)
      case None =>
        r := Raised(Unmodelled("a double read from input"));
      case Some(value) =>
        var ok := Assign(name.lexeme, value);
        r := if ok then Done(()) else Raised(Thrown);
    }

    /** The `try` block of `visitInputStmt`: a new scanner and parser over `program`, then its statements. */
    method RunLine(program: string, fuel: nat) returns (r: Completion<bool>)
      requires Valid()
      modifies this
      ensures Matches(Interpreting.RunLine(program, old(Snapshot()), fuel), r, Snapshot())
      decreases fuel, 3
    {
      var scanner := new ScannerImpl.Scanner(program);
      var scanned := scanner.ScanTokens();
      if scanned.Err? {
        return Done(false);
      }
      Scanning.ScanTokensShape(program);
      var parser := new ParserImpl.Parser(scanned.value);
      var statements := parser.Parse();
      r := RunStatements(statements, fuel);
    }

    /** The loop of that `try` block: run each statement; an error, a `break` or a `return` ends it. */
    method RunStatements(statements: seq<Stmt>, fuel: nat) returns (r: Completion<bool>)
      requires Valid()
      modifies this
      ensures Matches(Interpreting.RunStatements(statements, 0, false, old(Snapshot()), fuel), r, Snapshot())
      decreases fuel, 2
    {
      ghost var goal := Interpreting.RunStatements(statements, 0, false, Snapshot(), fuel);
      var completed := false;
      var i := 0;
      while i < |statements|
        invariant i <= |statements| && Valid()
        invariant Interpreting.RunStatements(statements, i, completed, Snapshot(), fuel) == goal
        decreases |statements| - i
      {
        var s := Execute(statements[i], fuel);
        if s.Raised? {
          if s.signal.Unmodelled? || s.signal.OutOfFuel? {
            return Raised(s.signal);
          }
          break;
        }
        completed := true;
        i := i + 1;
      }
      r := Done(completed);
    }

    /** `interpret`: the program's statements until one raises. */
    method Interpret(statements: seq<Stmt>, fuel: nat) returns (r: Completion<()>)
      requires Valid()
      modifies this
      ensures Matches(Interpreting.ExecuteStatements(statements, 0, old(Snapshot()), fuel), r, Snapshot())
    {
      r := ExecuteStatements(statements, fuel);
    }
  }
}
