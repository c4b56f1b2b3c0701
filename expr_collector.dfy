/**
 * The expression collector: a statement visitor that appends to one list, in
 * visiting order, every expression the statements hold directly. It does not
 * look inside expressions, and it only ever appends.
 *
 * `Collect` is the list one statement's visit appends; its partner is the
 * pre-order walk over statements and switch arms (`Sites`), each contributing
 * the expressions it holds itself (`Own`). The class `ExprCollector` is the
 * visitor, proved to append exactly `Collect`.
 */
module ExprCollection {
  import opened Wrappers
  import opened LegacyAst

  // ---------------------------------------------------------------------
  // What a visit appends
  // ---------------------------------------------------------------------

  function Collect(s: Stmt): seq<Expr>
    decreases s
  {
    match s
    case Print(e) => [e]
    case Var(_, _, initializer) => if initializer.None? then [] else [initializer.value]
    case Function(_, _, body) => CollectAll(body)
    case Return(_, value) => if value.None? then [] else [value.value]
    case If(condition, thenBranch, elseBranch) =>
      [condition] + Collect(thenBranch) + (if elseBranch.None? then [] else Collect(elseBranch.value))
    case Block(statements) => CollectAll(statements)
    case Expression(e) => [e]
    case While(condition, body) => [condition] + Collect(body)
    case Switch(e, cases, defaultCase) =>
      [e] + CollectCases(cases) + (if defaultCase.None? then [] else CollectDefault(defaultCase.value))
    case Input(_) => []
    case Break => []
  }

  /** The statements of a body, first to last (the loops of the function and block visitors). */
  function CollectAll(ss: seq<Stmt>): seq<Expr>
    decreases ss
  {
    if ss == [] then [] else CollectAll(ss[..|ss| - 1]) + Collect(ss[|ss| - 1])
  }

  /** The arms of a switch, first to last. */
  function CollectCases(cases: seq<Case>): seq<Expr>
    decreases cases
  {
    if cases == [] then [] else CollectCases(cases[..|cases| - 1]) + CollectCase(cases[|cases| - 1])
  }

  /** One arm: its value when it has one, then its body. */
  function CollectCase(c: Case): seq<Expr>
    decreases c
  {
    (if c.value.None? then [] else [c.value.value]) + Collect(c.stmt)
  }

  /** The default arm: its body only. */
  function CollectDefault(c: Case): seq<Expr>
    decreases c
  {
    Collect(c.stmt)
  }

  // ---------------------------------------------------------------------
  // The same list, read off a pre-order walk
  // ---------------------------------------------------------------------

  /** A place in the tree that can hold expressions: a statement or a switch arm. */
  datatype Site = StmtSite(stmt: Stmt) | ArmSite(arm: Case)

  /** The expressions a site holds itself, not counting those of its parts. */
  function Own(site: Site): seq<Expr>
  {
    match site
    case ArmSite(c) => if c.value.None? then [] else [c.value.value]
    case StmtSite(s) => StmtOwn(s)
  }

  function StmtOwn(s: Stmt): seq<Expr>
  {
    match s
    case Print(e) => [e]
    case Var(_, _, initializer) => if initializer.None? then [] else [initializer.value]
    case Return(_, value) => if value.None? then [] else [value.value]
    case If(condition, _, _) => [condition]
    case Expression(e) => [e]
    case While(condition, _) => [condition]
    case Switch(e, _, _) => [e]
    case _ => []
  }

  /** The lists `f` gives for the elements of `xs`, first to last, joined. */
  function FlatMap<T>(xs: seq<T>, f: T -> seq<Expr>): seq<Expr>
  {
    if xs == [] then [] else FlatMap(xs[..|xs| - 1], f) + f(xs[|xs| - 1])
  }

  /** `s` and then the sites of its parts, in the order the source lists them. */
  function Sites(s: Stmt): seq<Site>
    decreases s
  {
    match s
    case Function(_, _, body) => [StmtSite(s)] + SitesAll(body)
    case If(_, thenBranch, elseBranch) =>
      [StmtSite(s)] + Sites(thenBranch) + (if elseBranch.None? then [] else Sites(elseBranch.value))
    case Block(statements) => [StmtSite(s)] + SitesAll(statements)
    case While(_, body) => [StmtSite(s)] + Sites(body)
    case Switch(_, cases, defaultCase) =>
      [StmtSite(s)] + SitesCases(cases) + (if defaultCase.None? then [] else SitesDefault(defaultCase.value))
    case _ => [StmtSite(s)]
  }

  function SitesAll(ss: seq<Stmt>): seq<Site>
    decreases ss
  {
    if ss == [] then [] else SitesAll(ss[..|ss| - 1]) + Sites(ss[|ss| - 1])
  }

  function SitesCases(cases: seq<Case>): seq<Site>
    decreases cases
  {
    if cases == [] then [] else SitesCases(cases[..|cases| - 1]) + SitesCase(cases[|cases| - 1])
  }

  /** An arm is a site of its own, followed by the sites of its body. */
  function SitesCase(c: Case): seq<Site>
    decreases c
  {
    [ArmSite(c)] + Sites(c.stmt)
  }

  /** The default arm's value is never visited, so only its body's sites count. */
  function SitesDefault(c: Case): seq<Site>
    decreases c
  {
    Sites(c.stmt)
  }

  lemma {:induction false} FlatMapAppend<T>(a: seq<T>, b: seq<T>, f: T -> seq<Expr>)
    decreases b
    ensures FlatMap(a + b, f) == FlatMap(a, f) + FlatMap(b, f)
  {
    if b == [] {
      assert a + b == a;
    } else {
      var n := |b| - 1;
      assert (a + b)[..|a + b| - 1] == a + b[..n];
      assert (a + b)[|a + b| - 1] == b[n];
      FlatMapAppend(a, b[..n], f);
    }
  }

  /** Collecting is reading the own expressions of every site, in pre-order. */
  lemma {:induction false} CollectIsPreorder(s: Stmt)
    decreases s
    ensures Collect(s) == FlatMap(Sites(s), Own)
  {
    var head := [StmtSite(s)];
    assert FlatMap(head, Own) == Own(StmtSite(s)) by {
      assert head[..0] == [];
    }
    match s
    case Function(_, _, body) =>
      CollectAllIsPreorder(body);
      FlatMapAppend(head, SitesAll(body), Own);
    case If(_, thenBranch, elseBranch) =>
      CollectIsPreorder(thenBranch);
      var tail := if elseBranch.None? then [] else Sites(elseBranch.value);
      if elseBranch.Some? {
        CollectIsPreorder(elseBranch.value);
      }
      FlatMapAppend(head, Sites(thenBranch), Own);
      FlatMapAppend(head + Sites(thenBranch), tail, Own);
    case Block(statements) =>
      CollectAllIsPreorder(statements);
      FlatMapAppend(head, SitesAll(statements), Own);
    case While(_, body) =>
      CollectIsPreorder(body);
      FlatMapAppend(head, Sites(body), Own);
    case Switch(_, cases, defaultCase) =>
      CollectCasesIsPreorder(cases);
      var tail := if defaultCase.None? then [] else SitesDefault(defaultCase.value);
      if defaultCase.Some? {
        CollectIsPreorder(defaultCase.value.stmt);
      }
      FlatMapAppend(head, SitesCases(cases), Own);
      FlatMapAppend(head + SitesCases(cases), tail, Own);
    case _ =>
  }

  lemma {:induction false} CollectAllIsPreorder(ss: seq<Stmt>)
    decreases ss
    ensures CollectAll(ss) == FlatMap(SitesAll(ss), Own)
  {
    if ss != [] {
      var n := |ss| - 1;
      CollectAllIsPreorder(ss[..n]);
      CollectIsPreorder(ss[n]);
      FlatMapAppend(SitesAll(ss[..n]), Sites(ss[n]), Own);
    }
  }

  lemma {:induction false} CollectCasesIsPreorder(cases: seq<Case>)
    decreases cases
    ensures CollectCases(cases) == FlatMap(SitesCases(cases), Own)
  {
    if cases != [] {
      var n := |cases| - 1;
      CollectCasesIsPreorder(cases[..n]);
      CollectCaseIsPreorder(cases[n]);
      FlatMapAppend(SitesCases(cases[..n]), SitesCase(cases[n]), Own);
    }
  }

  lemma CollectCaseIsPreorder(c: Case)
    decreases c
    ensures CollectCase(c) == FlatMap(SitesCase(c), Own)
  {
    var head := [ArmSite(c)];
    assert FlatMap(head, Own) == Own(ArmSite(c)) by {
      assert head[..0] == [];
    }
    CollectIsPreorder(c.stmt);
    FlatMapAppend(head, Sites(c.stmt), Own);
  }

  /** The statements of a body are visited in order: collecting distributes over `+`. */
  lemma {:induction false} CollectAllAppend(a: seq<Stmt>, b: seq<Stmt>)
    decreases b
    ensures CollectAll(a + b) == CollectAll(a) + CollectAll(b)
  {
    if b == [] {
      assert a + b == a;
    } else {
      var n := |b| - 1;
      assert (a + b)[..|a + b| - 1] == a + b[..n];
      assert (a + b)[|a + b| - 1] == b[n];
      CollectAllAppend(a, b[..n]);
    }
  }

  // ---------------------------------------------------------------------
  // The visitor
  // ---------------------------------------------------------------------

  class ExprCollector {
    var exprs: seq<Expr>

    constructor()
      ensures exprs == []
    {
      exprs := [];
    }

    /** The list collected so far. */
    method GetExprs() returns (r: seq<Expr>)
      ensures r == exprs
    {
      r := exprs;
    }

    /** `accept`: the visitor of the statement's kind. */
    method VisitStmt(s: Stmt)
      modifies this
      decreases s, 1
      ensures exprs == old(exprs) + Collect(s)
    {
      match s
      case Print(e) =>
        exprs := exprs + [e];
      case Var(_, _, initializer) =>
        if initializer.Some? {
          exprs := exprs + [initializer.value];
        }
      case Function(_, _, body) =>
        VisitAll(body);
      case Return(_, value) =>
        if value.Some? {
          exprs := exprs + [value.value];
        }
      case If(_, _, _) =>
        VisitIf(s);
      case Block(statements) =>
        VisitAll(statements);
      case Expression(e) =>
        exprs := exprs + [e];
      case While(condition, body) =>
        VisitWhile(s);
      case Switch(_, _, _) =>
        VisitSwitch(s);
      case Input(_) =>
      case Break =>
    }

    /** The condition, then the then-branch, then the else-branch when there is one. */
    method VisitIf(s: Stmt)
      requires s.If?
      modifies this
      decreases s, 0
      ensures exprs == old(exprs) + Collect(s)
    {
      var If(condition, thenBranch, elseBranch) := s;
      exprs := exprs + [condition];
      VisitStmt(thenBranch);
      if elseBranch.Some? {
        VisitStmt(elseBranch.value);
      }
    }

    /** The condition, then the body. */
    method VisitWhile(s: Stmt)
      requires s.While?
      modifies this
      decreases s, 0
      ensures exprs == old(exprs) + Collect(s)
    {
      exprs := exprs + [s.condition];
      VisitStmt(s.loopBody);
    }

    /** The scrutinee, then each arm, then the default arm's body. */
    method VisitSwitch(s: Stmt)
      requires s.Switch?
      modifies this
      decreases s, 0
      ensures exprs == old(exprs) + Collect(s)
    {
      var Switch(e, cases, defaultCase) := s;
      exprs := exprs + [e];
      VisitCases(cases);
      if defaultCase.Some? {
        VisitDefault(defaultCase.value);
      }
    }

    /** The loop over a function body or a block's statements. */
    method VisitAll(ss: seq<Stmt>)
      modifies this
      decreases ss
      ensures exprs == old(exprs) + CollectAll(ss)
    {
      for i := 0 to |ss|
        invariant exprs == old(exprs) + CollectAll(ss[..i])
      {
        assert ss[..i + 1][..i] == ss[..i];
        VisitStmt(ss[i]);
      }
      assert ss[..|ss|] == ss;
    }

    /** The loop over a switch's arms. */
    method VisitCases(cases: seq<Case>)
      modifies this
      decreases cases
      ensures exprs == old(exprs) + CollectCases(cases)
    {
      for i := 0 to |cases|
        invariant exprs == old(exprs) + CollectCases(cases[..i])
      {
        assert cases[..i + 1][..i] == cases[..i];
        VisitCase(cases[i]);
      }
      assert cases[..|cases|] == cases;
    }

    /** One turn of that loop: the arm's value when present, then its body. */
    method VisitCase(c: Case)
      modifies this
      decreases c
      ensures exprs == old(exprs) + CollectCase(c)
    {
      if c.value.Some? {
        exprs := exprs + [c.value.value];
      }
      VisitStmt(c.stmt);
    }

    method VisitDefault(c: Case)
      modifies this
      decreases c
      ensures exprs == old(exprs) + CollectDefault(c)
    {
      VisitStmt(c.stmt);
    }
  }
}
