/**
 * The syntax-tree printer: every node becomes a list item `<li><b>title</b>`
 * followed, when the node has children, by a nested `<ul>` of their items.
 *
 * The printer is modelled as pure functions (`RenderExpr`, `RenderStmt`); its
 * partner is the tree of titles it prints (`Outline`) together with the direct
 * encoding of that tree as nested items (`Html`): every rendering is the
 * encoding of its tree. Renderings that the model cannot produce are `None`:
 * the increment and decrement nodes, for which the printer has no visitor,
 * and literals whose Java `toString` is not modelled (doubles, functions).
 */
module AstHtml {
  import opened Wrappers
  import opened Values
  import opened Tokens
  import opened Ast

  /** One printed item: its title and its child items, in order. */
  datatype Outline = Node(title: string, children: seq<Outline>)

  /** The text of one item: the bold title, then a nested list unless there are no children. */
  function Tag(title: string, children: string): string
  {
    "<li><b>" + title + "</b>" + (if children == "" then "" else "<ul>" + children + "</ul>") + "</li>"
  }

  /** `"<li><b>"` opens the text and `"</li>"` closes it. */
  predicate IsItem(text: string)
  {
    |text| >= 12 && text[..7] == "<li><b>" && text[|text| - 5..] == "</li>"
  }

  // ---------------------------------------------------------------------
  // The printer
  // ---------------------------------------------------------------------

  /** A literal's title: `"Literal: "` and the value's Java `toString`. */
  function LiteralTitle(v: Value): Option<string>
  {
    var text :- JavaToString(v);
    Some("Literal: " + text)
  }

  /** The expression visitors. */
  function RenderExpr(e: Expr): Option<string>
    decreases e
  {
    match e
    case Binary(left, op, right) =>
      var l :- RenderExpr(left);
      var rr :- RenderExpr(right);
      Some(Tag("Binária (" + op.lexeme + ")", l + rr))
    case Grouping(inner) =>
      var i :- RenderExpr(inner);
      Some(Tag("Agrupamento", i))
    case Literal(v) =>
      var title :- LiteralTitle(v);
      Some(Tag(title, ""))
    case Unary(op, right) =>
      var rr :- RenderExpr(right);
      Some(Tag("Unária (" + op.lexeme + ")", rr))
    case Variable(name) => Some(Tag("Variável: " + name.lexeme, ""))
    case Assign(name, value) =>
      var v :- RenderExpr(value);
      Some(Tag("Atribuição: " + name.lexeme, v))
    case Call(callee, _, arguments) =>
      var c :- RenderExpr(callee);
      var a :- RenderExprs(arguments);
      Some(Tag("Chamada de função", c + a))
    case Incremento(_, _, _) => None
    case Decremento(_, _, _) => None
  }

  /** The renderings of `es`, concatenated in order (the argument loop of the call visitor). */
  function RenderExprs(es: seq<Expr>): Option<string>
    decreases es
  {
    if es == [] then Some("")
    else
      var first :- RenderExpr(es[0]);
      var rest :- RenderExprs(es[1..]);
      Some(first + rest)
  }

  /** The statement visitors. */
  function RenderStmt(s: Stmt): Option<string>
    decreases s
  {
    match s
    case Print(e) =>
      var x :- RenderExpr(e);
      Some(Tag("Print", x))
    case Var(_, name, initializer) =>
      var init :- if initializer.None? then Some("") else RenderExpr(initializer.value);
      Some(Tag("Variável: " + name.lexeme, init))
    case Function(name, _, body) =>
      var b :- RenderStmts(body);
      Some(Tag("Função: " + name.lexeme, b))
    case Return(_, value) =>
      var v :- if value.None? then Some("") else RenderExpr(value.value);
      Some(Tag("Return", v))
    case If(condition, thenBranch, elseBranch) =>
      var c :- RenderExpr(condition);
      var t :- RenderStmt(thenBranch);
      var e :- if elseBranch.None? then Some("") else RenderStmt(elseBranch.value);
      Some(Tag("If", c + t + e))
    case Block(statements) =>
      var b :- RenderStmts(statements);
      Some(Tag("Bloco", b))
    case Expression(e) =>
      var x :- RenderExpr(e);
      Some(Tag("Expressão", x))
    case While(condition, body) =>
      var c :- RenderExpr(condition);
      var b :- RenderStmt(body);
      Some(Tag("While", c + b))
    case Break => Some(Tag("Break", ""))
    case Switch(e, cases, defaultCase) =>
      var x :- RenderExpr(e);
      var cs :- RenderCases(cases);
      var d :- if defaultCase.None? then Some("") else RenderDefault(defaultCase.value);
      Some(Tag("Switch", x + cs + d))
    case Input(name) => Some(Tag("Input: " + name.lexeme, ""))
  }

  /** The renderings of `ss`, concatenated in order (the block and function-body loops). */
  function RenderStmts(ss: seq<Stmt>): Option<string>
    decreases ss
  {
    if ss == [] then Some("")
    else
      var first :- RenderStmt(ss[0]);
      var rest :- RenderStmts(ss[1..]);
      Some(first + rest)
  }

  /** One `"Case"` item per arm, in order; the arm's value is not printed. */
  function RenderCases(cases: seq<Case>): Option<string>
    decreases cases
  {
    if cases == [] then Some("")
    else
      var first :- RenderCase(cases[0]);
      var rest :- RenderCases(cases[1..]);
      Some(first + rest)
  }

  function RenderCase(c: Case): Option<string>
    decreases c
  {
    var body :- RenderStmt(c.stmt);
    Some(Tag("Case", body))
  }

  function RenderDefault(c: Case): Option<string>
    decreases c
  {
    var body :- RenderStmt(c.stmt);
    Some(Tag("Default", body))
  }

  // ---------------------------------------------------------------------
  // Which trees the model can print
  // ---------------------------------------------------------------------

  /** No increment or decrement node and no literal without a modelled `toString`. */
  predicate PrintableExpr(e: Expr)
    decreases e
  {
    match e
    case Binary(left, _, right) => PrintableExpr(left) && PrintableExpr(right)
    case Grouping(inner) => PrintableExpr(inner)
    case Literal(v) => JavaToString(v).Some?
    case Unary(_, right) => PrintableExpr(right)
    case Variable(_) => true
    case Assign(_, value) => PrintableExpr(value)
    case Call(callee, _, arguments) => PrintableExpr(callee) && forall a :: a in arguments ==> PrintableExpr(a)
    case Incremento(_, _, _) => false
    case Decremento(_, _, _) => false
  }

  predicate PrintableStmt(s: Stmt)
    decreases s
  {
    match s
    case Print(e) => PrintableExpr(e)
    case Var(_, _, initializer) => initializer.Some? ==> PrintableExpr(initializer.value)
    case Function(_, _, body) => forall b :: b in body ==> PrintableStmt(b)
    case Return(_, value) => value.Some? ==> PrintableExpr(value.value)
    case If(condition, thenBranch, elseBranch) =>
      PrintableExpr(condition) && PrintableStmt(thenBranch) &&
      (elseBranch.Some? ==> PrintableStmt(elseBranch.value))
    case Block(statements) => forall b :: b in statements ==> PrintableStmt(b)
    case Expression(e) => PrintableExpr(e)
    case While(condition, body) => PrintableExpr(condition) && PrintableStmt(body)
    case Break => true
    case Switch(e, cases, defaultCase) =>
      PrintableExpr(e) && (forall c :: c in cases ==> PrintableStmt(c.stmt)) &&
      (defaultCase.Some? ==> PrintableStmt(defaultCase.value.stmt))
    case Input(_) => true
  }

  /** Rendering fails exactly on the trees that are not printable. */
  lemma {:induction false} RenderExprDefined(e: Expr)
    decreases e
    ensures RenderExpr(e).Some? <==> PrintableExpr(e)
  {
    match e
    case Binary(left, _, right) => RenderExprDefined(left); RenderExprDefined(right);
    case Grouping(inner) => RenderExprDefined(inner);
    case Literal(_) =>
    case Unary(_, right) => RenderExprDefined(right);
    case Variable(_) =>
    case Assign(_, value) => RenderExprDefined(value);
    case Call(callee, _, arguments) => RenderExprDefined(callee); RenderExprsDefined(arguments);
    case Incremento(_, _, _) =>
    case Decremento(_, _, _) =>
  }

  lemma {:induction false} RenderExprsDefined(es: seq<Expr>)
    decreases es
    ensures RenderExprs(es).Some? <==> forall a :: a in es ==> PrintableExpr(a)
  {
    if es != [] {
      RenderExprDefined(es[0]);
      RenderExprsDefined(es[1..]);
      assert forall a :: a in es <==> a == es[0] || a in es[1..];
    }
  }

  lemma {:induction false} RenderStmtDefined(s: Stmt)
    decreases s
    ensures RenderStmt(s).Some? <==> PrintableStmt(s)
  {
    match s
    case Print(e) => RenderExprDefined(e);
    case Var(_, _, initializer) => if initializer.Some? { RenderExprDefined(initializer.value); }
    case Function(_, _, body) => RenderStmtsDefined(body);
    case Return(_, value) => if value.Some? { RenderExprDefined(value.value); }
    case If(condition, thenBranch, elseBranch) =>
      RenderExprDefined(condition);
      RenderStmtDefined(thenBranch);
      if elseBranch.Some? { RenderStmtDefined(elseBranch.value); }
    case Block(statements) => RenderStmtsDefined(statements);
    case Expression(e) => RenderExprDefined(e);
    case While(condition, body) => RenderExprDefined(condition); RenderStmtDefined(body);
    case Break =>
    case Switch(e, cases, defaultCase) =>
      RenderExprDefined(e);
      RenderCasesDefined(cases);
      if defaultCase.Some? { RenderStmtDefined(defaultCase.value.stmt); }
    case Input(_) =>
  }

  lemma {:induction false} RenderStmtsDefined(ss: seq<Stmt>)
    decreases ss
    ensures RenderStmts(ss).Some? <==> forall b :: b in ss ==> PrintableStmt(b)
  {
    if ss != [] {
      RenderStmtDefined(ss[0]);
      RenderStmtsDefined(ss[1..]);
      assert forall b :: b in ss <==> b == ss[0] || b in ss[1..];
    }
  }

  lemma {:induction false} RenderCasesDefined(cases: seq<Case>)
    decreases cases
    ensures RenderCases(cases).Some? <==> forall c :: c in cases ==> PrintableStmt(c.stmt)
  {
    if cases != [] {
      RenderCaseDefined(cases[0]);
      RenderCasesDefined(cases[1..]);
      assert forall c :: c in cases <==> c == cases[0] || c in cases[1..];
    }
  }

  lemma RenderCaseDefined(c: Case)
    decreases c
    ensures RenderCase(c).Some? <==> PrintableStmt(c.stmt)
  {
    RenderStmtDefined(c.stmt);
  }

  // ---------------------------------------------------------------------
  // The tree the printer shows
  // ---------------------------------------------------------------------

  /** The nested-list text of an outline. */
  function Html(o: Outline): string
    decreases o
  {
    Tag(o.title, HtmlList(o.children))
  }

  function HtmlList(os: seq<Outline>): string
    decreases os
  {
    if os == [] then "" else Html(os[0]) + HtmlList(os[1..])
  }

  lemma {:induction false} HtmlListAppend(a: seq<Outline>, b: seq<Outline>)
    decreases a
    ensures HtmlList(a + b) == HtmlList(a) + HtmlList(b)
  {
    if a == [] {
      assert a + b == b;
    } else {
      assert (a + b)[1..] == a[1..] + b;
      HtmlListAppend(a[1..], b);
    }
  }

  /** The printed tree of an expression: one node per visitor, children in visiting order. */
  function OutlineExpr(e: Expr): Outline
    requires PrintableExpr(e)
    decreases e
  {
    match e
    case Binary(left, op, right) => Node("Binária (" + op.lexeme + ")", [OutlineExpr(left), OutlineExpr(right)])
    case Grouping(inner) => Node("Agrupamento", [OutlineExpr(inner)])
    case Literal(v) => Node("Literal: " + JavaToString(v).value, [])
    case Unary(op, right) => Node("Unária (" + op.lexeme + ")", [OutlineExpr(right)])
    case Variable(name) => Node("Variável: " + name.lexeme, [])
    case Assign(name, value) => Node("Atribuição: " + name.lexeme, [OutlineExpr(value)])
    case Call(callee, _, arguments) => Node("Chamada de função", [OutlineExpr(callee)] + OutlineExprs(arguments))
  }

  function OutlineExprs(es: seq<Expr>): (r: seq<Outline>)
    requires forall a :: a in es ==> PrintableExpr(a)
    decreases es
    ensures |r| == |es|
  {
    if es == [] then [] else [OutlineExpr(es[0])] + OutlineExprs(es[1..])
  }

  function OutlineStmt(s: Stmt): Outline
    requires PrintableStmt(s)
    decreases s
  {
    match s
    case Print(e) => Node("Print", [OutlineExpr(e)])
    case Var(_, name, initializer) =>
      Node("Variável: " + name.lexeme, if initializer.None? then [] else [OutlineExpr(initializer.value)])
    case Function(name, _, body) => Node("Função: " + name.lexeme, OutlineStmts(body))
    case Return(_, value) => Node("Return", if value.None? then [] else [OutlineExpr(value.value)])
    case If(condition, thenBranch, elseBranch) =>
      Node("If", [OutlineExpr(condition)] + ([OutlineStmt(thenBranch)] +
                 (if elseBranch.None? then [] else [OutlineStmt(elseBranch.value)])))
    case Block(statements) => Node("Bloco", OutlineStmts(statements))
    case Expression(e) => Node("Expressão", [OutlineExpr(e)])
    case While(condition, body) => Node("While", [OutlineExpr(condition), OutlineStmt(body)])
    case Break => Node("Break", [])
    case Switch(e, cases, defaultCase) =>
      Node("Switch", [OutlineExpr(e)] + (OutlineCases(cases) +
                     (if defaultCase.None? then [] else [Node("Default", [OutlineStmt(defaultCase.value.stmt)])])))
    case Input(name) => Node("Input: " + name.lexeme, [])
  }

  function OutlineStmts(ss: seq<Stmt>): (r: seq<Outline>)
    requires forall b :: b in ss ==> PrintableStmt(b)
    decreases ss
    ensures |r| == |ss|
  {
    if ss == [] then [] else [OutlineStmt(ss[0])] + OutlineStmts(ss[1..])
  }

  function OutlineCases(cases: seq<Case>): (r: seq<Outline>)
    requires forall c :: c in cases ==> PrintableStmt(c.stmt)
    decreases cases
    ensures |r| == |cases|
  {
    if cases == [] then [] else [OutlineCase(cases[0])] + OutlineCases(cases[1..])
  }

  function OutlineCase(c: Case): Outline
    requires PrintableStmt(c.stmt)
    decreases c
  {
    Node("Case", [OutlineStmt(c.stmt)])
  }

  lemma HtmlListCons(o: Outline, os: seq<Outline>)
    ensures HtmlList([o] + os) == Html(o) + HtmlList(os)
  {
    assert ([o] + os)[1..] == os;
  }

  lemma HtmlListOne(o: Outline)
    ensures HtmlList([o]) == Html(o)
  {
    HtmlListCons(o, []);
    assert [o] + [] == [o];
    assert Html(o) + "" == Html(o);
  }

  /** The printer writes exactly the nested list of the tree it shows. */
  lemma {:induction false} RenderExprIsHtml(e: Expr)
    requires PrintableExpr(e)
    decreases e
    ensures RenderExpr(e) == Some(Html(OutlineExpr(e)))
  {
    match e
    case Binary(left, _, right) =>
      RenderExprIsHtml(left);
      RenderExprIsHtml(right);
      HtmlListCons(OutlineExpr(left), [OutlineExpr(right)]);
      HtmlListOne(OutlineExpr(right));
    case Grouping(inner) =>
      RenderExprIsHtml(inner);
      HtmlListOne(OutlineExpr(inner));
    case Literal(_) =>
    case Unary(_, right) =>
      RenderExprIsHtml(right);
      HtmlListOne(OutlineExpr(right));
    case Variable(_) =>
    case Assign(_, value) =>
      RenderExprIsHtml(value);
      HtmlListOne(OutlineExpr(value));
    case Call(callee, _, arguments) =>
      RenderExprIsHtml(callee);
      RenderExprsIsHtml(arguments);
      HtmlListCons(OutlineExpr(callee), OutlineExprs(arguments));
  }

  lemma {:induction false} RenderExprsIsHtml(es: seq<Expr>)
    requires forall a :: a in es ==> PrintableExpr(a)
    decreases es
    ensures RenderExprs(es) == Some(HtmlList(OutlineExprs(es)))
  {
    if es != [] {
      assert es[0] in es;
      RenderExprIsHtml(es[0]);
      assert forall a :: a in es[1..] ==> a in es;
      RenderExprsIsHtml(es[1..]);
      HtmlListCons(OutlineExpr(es[0]), OutlineExprs(es[1..]));
    }
  }

  lemma {:induction false} RenderStmtIsHtml(s: Stmt)
    requires PrintableStmt(s)
    decreases s, 1
    ensures RenderStmt(s) == Some(Html(OutlineStmt(s)))
  {
    match s
    case Print(e) =>
      RenderExprIsHtml(e);
      HtmlListOne(OutlineExpr(e));
    case Var(_, _, initializer) =>
      if initializer.Some? {
        RenderExprIsHtml(initializer.value);
        HtmlListOne(OutlineExpr(initializer.value));
      }
    case Function(_, _, body) => RenderStmtsIsHtml(body);
    case Return(_, value) =>
      if value.Some? {
        RenderExprIsHtml(value.value);
        HtmlListOne(OutlineExpr(value.value));
      }
    case If(_, _, _) => IfIsHtml(s);
    case Block(statements) => RenderStmtsIsHtml(statements);
    case Expression(e) =>
      RenderExprIsHtml(e);
      HtmlListOne(OutlineExpr(e));
    case While(condition, body) =>
      RenderExprIsHtml(condition);
      RenderStmtIsHtml(body);
      HtmlListCons(OutlineExpr(condition), [OutlineStmt(body)]);
      HtmlListOne(OutlineStmt(body));
    case Break =>
    case Switch(_, _, _) => SwitchIsHtml(s);
    case Input(_) =>
  }

  lemma {:induction false} IfIsHtml(s: Stmt)
    requires s.If? && PrintableStmt(s)
    decreases s, 0
    ensures RenderStmt(s) == Some(Html(OutlineStmt(s)))
  {
    var If(condition, thenBranch, elseBranch) := s;
    RenderExprIsHtml(condition);
    RenderStmtIsHtml(thenBranch);
    if elseBranch.Some? {
      RenderStmtIsHtml(elseBranch.value);
    }
    IfOutlineHtml(s);
  }

  lemma IfOutlineHtml(s: Stmt)
    requires s.If? && PrintableStmt(s)
    ensures Html(OutlineStmt(s)) == Tag("If", Html(OutlineExpr(s.condition)) + Html(OutlineStmt(s.thenBranch)) +
                                              (if s.elseBranch.None? then "" else Html(OutlineStmt(s.elseBranch.value))))
  {
    var If(condition, thenBranch, elseBranch) := s;
    var oc, ot := OutlineExpr(condition), OutlineStmt(thenBranch);
    if elseBranch.None? {
      HtmlOfTwo("If", oc, ot);
      assert Html(oc) + Html(ot) + "" == Html(oc) + Html(ot);
    } else {
      HtmlOfThree("If", oc, ot, OutlineStmt(elseBranch.value));
    }
  }
  lemma HtmlOfTwo(title: string, a: Outline, b: Outline)
    ensures Html(Node(title, [a] + ([b] + []))) == Tag(title, Html(a) + Html(b))
  {
    assert [b] + [] == [b];
    HtmlListOne(b);
    HtmlListCons(a, [b]);
  }
  lemma HtmlOfThree(title: string, a: Outline, b: Outline, c: Outline)
    ensures Html(Node(title, [a] + ([b] + [c]))) == Tag(title, Html(a) + Html(b) + Html(c))
  {
    HtmlListOne(c);
    HtmlListCons(b, [c]);
    HtmlListCons(a, [b] + [c]);
    assert Html(a) + (Html(b) + Html(c)) == Html(a) + Html(b) + Html(c);
  }
  lemma {:induction false} SwitchIsHtml(s: Stmt)
    requires s.Switch? && PrintableStmt(s)
    decreases s, 0
    ensures RenderStmt(s) == Some(Html(OutlineStmt(s)))
  {
    var Switch(e, cases, defaultCase) := s;
    RenderExprIsHtml(e);
    RenderCasesIsHtml(cases);
    if defaultCase.Some? {
      RenderStmtIsHtml(defaultCase.value.stmt);
      HtmlListOne(OutlineStmt(defaultCase.value.stmt));
    }
    SwitchOutlineHtml(s);
  }

  lemma SwitchOutlineHtml(s: Stmt)
    requires s.Switch? && PrintableStmt(s)
    ensures Html(OutlineStmt(s)) == Tag("Switch", Html(OutlineExpr(s.expr)) + HtmlList(OutlineCases(s.cases)) +
                                                  (if s.defaultCase.None? then ""
                                                   else Tag("Default", Html(OutlineStmt(s.defaultCase.value.stmt)))))
  {
    var Switch(e, cases, defaultCase) := s;
    var tail := if defaultCase.None? then [] else [Node("Default", [OutlineStmt(defaultCase.value.stmt)])];
    HtmlListSplice(OutlineExpr(e), OutlineCases(cases), tail);
    if defaultCase.Some? {
      HtmlListOne(OutlineStmt(defaultCase.value.stmt));
      HtmlListOne(tail[0]);
    }
  }
  lemma HtmlListSplice(a: Outline, os: seq<Outline>, tail: seq<Outline>)
    ensures HtmlList([a] + (os + tail)) == Html(a) + HtmlList(os) + HtmlList(tail)
  {
    HtmlListAppend(os, tail);
    HtmlListCons(a, os + tail);
  }

  lemma {:induction false} RenderStmtsIsHtml(ss: seq<Stmt>)
    requires forall b :: b in ss ==> PrintableStmt(b)
    decreases ss
    ensures RenderStmts(ss) == Some(HtmlList(OutlineStmts(ss)))
  {
    if ss != [] {
      assert ss[0] in ss;
      RenderStmtIsHtml(ss[0]);
      assert forall b :: b in ss[1..] ==> b in ss;
      RenderStmtsIsHtml(ss[1..]);
      HtmlListCons(OutlineStmt(ss[0]), OutlineStmts(ss[1..]));
    }
  }

  lemma {:induction false} RenderCasesIsHtml(cases: seq<Case>)
    requires forall c :: c in cases ==> PrintableStmt(c.stmt)
    decreases cases
    ensures RenderCases(cases) == Some(HtmlList(OutlineCases(cases)))
  {
    if cases != [] {
      assert cases[0] in cases;
      RenderCaseIsHtml(cases[0]);
      assert forall c :: c in cases[1..] ==> c in cases;
      RenderCasesIsHtml(cases[1..]);
      HtmlListCons(OutlineCase(cases[0]), OutlineCases(cases[1..]));
    }
  }

  lemma RenderCaseIsHtml(c: Case)
    requires PrintableStmt(c.stmt)
    decreases c
    ensures RenderCase(c) == Some(Html(OutlineCase(c)))
  {
    RenderStmtIsHtml(c.stmt);
    HtmlListOne(OutlineStmt(c.stmt));
  }

  // ---------------------------------------------------------------------
  // The page
  // ---------------------------------------------------------------------

  /** What `gerarHtml` writes before the statements' items: the head, the style sheet, the heading, `<ul>`. */
  const PageHead: string :=
    "<html><head><meta charset='UTF-8'><style>"
    + "body{font-family:Arial,sans-serif;background:#FFF;} ul{margin-left:30px;}"
    + "li{margin-bottom:6px;font-size:16px;} b{font-weight:600;color:#222;}"
    + "</style></head>"
    + "<body><h2>Árvore Sintática (AST)</h2><ul>"

  /** What it writes after them. */
  const PageTail: string := "</ul></body></html>"

  /**
   * The text of the page `gerarHtml` writes: one item per statement, in
   * order, in a single list between the fixed head and tail. `None` when a
   * statement cannot be printed.
   */
  function Page(statements: seq<Stmt>): (r: Option<string>)
    ensures r.Some? <==> forall b :: b in statements ==> PrintableStmt(b)
    ensures r.Some? ==> r.value == PageHead + HtmlList(OutlineStmts(statements)) + PageTail
  {
    RenderStmtsDefined(statements);
    if RenderStmts(statements).Some? then RenderStmtsIsHtml(statements); Some(PageHead + RenderStmts(statements).value + PageTail)
    else None
  }

  // ---------------------------------------------------------------------
  // The shape of every rendering
  // ---------------------------------------------------------------------

  /** An item with no nested list. */
  function Leaf(title: string): string
  {
    "<li><b>" + title + "</b></li>"
  }

  lemma TagIsItem(title: string, children: string)
    ensures IsItem(Tag(title, children))
    ensures children == "" ==> Tag(title, children) == Leaf(title)
  {
    var mid := if children == "" then "" else "<ul>" + children + "</ul>";
    var t := Tag(title, children);
    assert t == "<li><b>" + title + "</b>" + mid + "</li>";
    assert forall k :: 0 <= k < 7 ==> t[k] == "<li><b>"[k];
    assert t[..7] == "<li><b>";
    assert forall k :: 0 <= k < 5 ==> t[|t| - 5 + k] == "</li>"[k];
    assert t[|t| - 5..] == "</li>";
    if children == "" {
      assert "</b>" + "" + "</li>" == "</b></li>";
      assert t == "<li><b>" + title + ("</b>" + "" + "</li>");
    }
  }

  /** Every expression the printer renders is one list item. */
  lemma RenderExprIsItem(e: Expr)
    ensures RenderExpr(e).Some? ==> IsItem(RenderExpr(e).value)
  {
    RenderExprDefined(e);
    if PrintableExpr(e) {
      RenderExprIsHtml(e);
      TagIsItem(OutlineExpr(e).title, HtmlList(OutlineExpr(e).children));
    }
  }

  /** Every statement the printer renders is one list item. */
  lemma RenderStmtIsItem(s: Stmt)
    ensures RenderStmt(s).Some? ==> IsItem(RenderStmt(s).value)
  {
    RenderStmtDefined(s);
    if PrintableStmt(s) {
      RenderStmtIsHtml(s);
      TagIsItem(OutlineStmt(s).title, HtmlList(OutlineStmt(s).children));
    }
  }

  /** Literals and variables print without a nested list. */
  lemma LeafExpressions(e: Expr)
    requires e.Literal? || e.Variable?
    ensures RenderExpr(e).Some? ==> exists title :: RenderExpr(e).value == Leaf(title)
  {
    if RenderExpr(e).Some? {
      RenderExprDefined(e);
      RenderExprIsHtml(e);
      TagIsItem(OutlineExpr(e).title, "");
    }
  }

  /** `break` and input statements print without a nested list. */
  lemma LeafStatements(s: Stmt)
    requires s.Break? || s.Input?
    ensures exists title :: RenderStmt(s) == Some(Leaf(title))
  {
    RenderStmtIsHtml(s);
    TagIsItem(OutlineStmt(s).title, "");
  }

  /** Both renderings side by side, or `None` when either is missing. */
  function Join(x: Option<string>, y: Option<string>): Option<string>
  {
    if x.Some? && y.Some? then Some(x.value + y.value) else None
  }

  lemma JoinAssociates(x: Option<string>, y: Option<string>, z: Option<string>)
    ensures Join(x, Join(y, z)) == Join(Join(x, y), z)
  {
    if x.Some? && y.Some? && z.Some? {
      assert x.value + (y.value + z.value) == x.value + y.value + z.value;
    }
  }

  lemma RenderStmtsCons(ss: seq<Stmt>)
    requires ss != []
    ensures RenderStmts(ss) == Join(RenderStmt(ss[0]), RenderStmts(ss[1..]))
  {
  }

  /** A block or function body prints its statements in order: rendering distributes over `+`. */
  lemma {:induction false} RenderStmtsAppend(a: seq<Stmt>, b: seq<Stmt>)
    decreases a
    ensures RenderStmts(a + b) == Join(RenderStmts(a), RenderStmts(b))
  {
    if a == [] {
      assert a + b == b;
      if RenderStmts(b).Some? {
        assert "" + RenderStmts(b).value == RenderStmts(b).value;
      }
    } else {
      assert (a + b)[0] == a[0];
      assert (a + b)[1..] == a[1..] + b;
      RenderStmtsCons(a);
      RenderStmtsCons(a + b);
      RenderStmtsAppend(a[1..], b);
      JoinAssociates(RenderStmt(a[0]), RenderStmts(a[1..]), RenderStmts(b));
    }
  }

  /** Two lists of switch arms with the same bodies in the same order. */
  predicate SameBodies(a: seq<Case>, b: seq<Case>)
  {
    |a| == |b| && forall k :: 0 <= k < |a| ==> a[k].stmt == b[k].stmt
  }

  lemma {:induction false} RenderCasesIgnoresValues(a: seq<Case>, b: seq<Case>)
    requires SameBodies(a, b)
    decreases a
    ensures RenderCases(a) == RenderCases(b)
  {
    if a != [] {
      assert RenderCase(a[0]) == RenderCase(b[0]);
      RenderCasesIgnoresValues(a[1..], b[1..]);
    }
  }

  /** A switch prints the same whatever its arms' values are: only their bodies appear. */
  lemma SwitchIgnoresCaseValues(e: Expr, a: seq<Case>, b: seq<Case>, defaultCase: Option<Case>)
    requires SameBodies(a, b)
    ensures RenderStmt(Switch(e, a, defaultCase)) == RenderStmt(Switch(e, b, defaultCase))
  {
    RenderCasesIgnoresValues(a, b);
  }
}
