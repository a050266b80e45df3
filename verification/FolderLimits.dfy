/** Where folding misses an execution: for each hypothesis of its soundness a program that breaks it,
    what the program computes, and what it folds to. */
module FolderLimits {
  import opened Options
  import opened PySyntax
  import opened PySemantics
  import opened Templates
  import opened Folder
  import opened FolderSound
  import opened FolderTheorems

  /** The limit on products matters: past it, a combination that stands for itself is covered by no
      template kept, unless it equals one. */
  lemma CutProductLoses(p: Program, parts: seq<set<string>>, st: State)
    requires var combos := Combos(Listed(p, parts));
      && |combos| > MAX_TEMPLATES_PER_EXPR
      && (forall c | c in combos :: HoleFree(c))
      && (forall i, j :: 0 <= i < j < |combos| ==> combos[i] != combos[j])
    ensures Product(p, parts, st).st.capped
    ensures var lost := Combos(Listed(p, parts))[MAX_TEMPLATES_PER_EXPR];
      forall t | t in Product(p, parts, st).vals :: !Instance(t, lost)
  {
    hide Combos, Listed, HoleFree;
    var combos := Combos(Listed(p, parts));
    var lost := combos[MAX_TEMPLATES_PER_EXPR];
    var taken := combos[..MAX_TEMPLATES_PER_EXPR];
    var kept := set x | x in taken;
    assert taken[0] in kept;
    assert Product(p, parts, st).vals == OrHole(kept);
    forall t | t in Product(p, parts, st).vals ensures !Instance(t, lost) {
      assert t in taken;
      var i :| 0 <= i < MAX_TEMPLATES_PER_EXPR && combos[i] == t;
      HoleFreeInstance(t, lost);
    }
  }

  // -- just outside the fragment ------------------------------------------------------------------

  function NoOrder(s: set<string>): seq<string> { [] }

  const EMPTY_PROGRAM := Program(map[], map[], map[], map[], NoOrder)

  /** def f(url): url = "/b"; ... */
  const REASSIGNS := Fn("m", "f", ["url"], [], [], [Assign([TName("url")], Str("/b")), Pass])

  /** A reassigned parameter: bound to "/a" by the caller, it holds "/b" after the assignment,
      but it folds to "/a" only. */
  lemma ReassignedParameterUnsound()
    ensures !Plain(REASSIGNS, "url")
    ensures exists run, at ::
      var o := Exec(EMPTY_PROGRAM, Frame("m", Some(REASSIGNS), map["url" := VStr("/a")]), REASSIGNS.body, run);
      && o.Left?
      && Value(EMPTY_PROGRAM, Run, Frame("m", Some(REASSIGNS), o.vars), Name("url"), at) == Some(VStr("/b"))
    ensures Evaluate(EMPTY_PROGRAM, Name("url"), ToolEnv(REASSIGNS, map["url" := {"/a"}], []), 0, State(map[], false)).vals
      == {"/a"}
    ensures forall t | t in {"/a"} :: !Instance(t, "/b")
  {
    var leaf := Tr(0, VOther, map[], []);
    var stmt := Tr(1, VOther, map[], [leaf, leaf]);
    var run := Tr(1, VOther, map[], [stmt, leaf]);
    var fr := Frame("m", Some(REASSIGNS), map["url" := VStr("/a")]);
    assert BindChain([TName("url")], Str("/b"), "url") == [Str("/b")];
    assert StmtAssignments(REASSIGNS.body[0], "url") == [Str("/b")];
    assert AssignmentsTo(REASSIGNS.body, "url") != [];
    assert "url" in REASSIGNS.params + REASSIGNS.kwonly;
    assert BindAll([TName("url")], VStr("/b"), fr.vars, map[]) == map["url" := VStr("/b")];
    assert ExecStmt(EMPTY_PROGRAM, fr, REASSIGNS.body[0], stmt) == Normal(map["url" := VStr("/b")]);
    assert Exec(EMPTY_PROGRAM, fr.(vars := map["url" := VStr("/b")]), REASSIGNS.body[1..], leaf)
      == Left(map["url" := VStr("/b")]);
    var o := Exec(EMPTY_PROGRAM, fr, REASSIGNS.body, run);
    assert o == Left(map["url" := VStr("/b")]);
    var after := Frame("m", Some(REASSIGNS), o.vars);
    assert FrameLocal(after, "url");
    assert NameValue(EMPTY_PROGRAM, Run, after, "url", leaf) == Some(VStr("/b"));
    assert Value(EMPTY_PROGRAM, Run, after, Name("url"), leaf) == Some(VStr("/b"));
    HoleFreeInstance("/a", "/b");
  }

  /** def h(): if ...: return "/a" */
  const FALLS_OFF := Fn("m", "h", [], [], [], [If([Return(Some(Str("/a")))], [Pass])])

  const CALLS_H := Program(map[], map[("m", "h") := [FALLS_OFF]], map[("m", "h") := ("m", "h")], map[],
                           (s: set<string>) => if s == {"/a"} then ["/a"] else [])

  /** f"{h()}" */
  const FORMATS_H := FString([Field(Call(Name("h"), [], []), false)])

  /** A helper with a path that returns nothing: f"{h()}" can be "None", but folds to
      "/a" only. */
  lemma FallingOffUnsound()
    ensures MayReturnNone(FALLS_OFF)
    ensures exists u :: Value(CALLS_H, Run, ModuleFrame("m"), FORMATS_H, u) == Some(VStr("None"))
    ensures Evaluate(CALLS_H, FORMATS_H, Env("m", None, map[], [], map[]), 0, State(map[], false)).vals == {"/a"}
    ensures forall t | t in {"/a"} :: !Instance(t, "None")
  {
    hide Evaluate;
    HoleFreeInstance("/a", "None");
    FormatsToA();
    var body := FallsOff();
    var leaf := Tr(0, VOther, map[], []);
    var call := CallsH(Tr(0, VOther, map[], [leaf, leaf, body]));
    var u := Tr(0, VOther, map[], [Tr(0, VOther, map[], [call])]);
    var parts := [Field(Call(Name("h"), [], []), false)];
    assert parts[1..] == [] && u.kids[1..] == [];
    assert PartsText(CALLS_H, Run, ModuleFrame("m"), [], []) == Some("");
    assert "None" + "" == "None";
    assert PartsText(CALLS_H, Run, ModuleFrame("m"), parts, u.kids) == Some("None" + "");
    assert Value(CALLS_H, Run, ModuleFrame("m"), FString(parts), u) == Some(VStr("None"));
  }

  /** A run of h that takes the else branch and reaches its end. */
  lemma FallsOff() returns (body: Tr)
    ensures CallBody(CALLS_H, Run, Frame("m", Some(FALLS_OFF), map[]), body) == Some(VNone)
  {
    var leaf := Tr(0, VOther, map[], []);
    var branch := Tr(1, VOther, map[], [Tr(1, VOther, map[], [leaf, leaf]), Tr(1, VOther, map[], [])]);
    var stmt := Tr(1, VOther, map[], [branch, leaf]);
    body := Tr(1, VOther, map[], [stmt, Tr(1, VOther, map[], [])]);
    var fr := Frame("m", Some(FALLS_OFF), map[]);
    assert Exec(CALLS_H, fr, [Pass], branch) == Normal(map[]);
    assert ExecStmt(CALLS_H, fr, FALLS_OFF.body[0], stmt) == Normal(map[]);
    assert FALLS_OFF.body[1..] == [];
    assert Exec(CALLS_H, fr, FALLS_OFF.body, body) == Normal(map[]);
  }

  lemma CallsH(t: Tr) returns (u: Tr)
    requires |t.kids| == 3 && t.kids[0].kids == [] && t.kids[1].kids == []
    requires CallBody(CALLS_H, Run, Frame("m", Some(FALLS_OFF), map[]), t.kids[2]) == Some(VNone)
    ensures u == t && Value(CALLS_H, Run, ModuleFrame("m"), Call(Name("h"), [], []), t) == Some(VNone)
  {
    hide CallBody;
    u := t;
    assert CallPairs(FALLS_OFF, [], []) == [];
    assert PairValues(CALLS_H, Run, ModuleFrame("m"), [], []) == Some(map[]);
    assert Arguments(CALLS_H, Run, ModuleFrame("m"), FALLS_OFF, [], [], t) == Some(map[]);
    assert Callee(CALLS_H, ModuleFrame("m"), Name("h")) == Some(FALLS_OFF);
  }

  lemma FoldsToA()
    ensures Evaluate(CALLS_H, Call(Name("h"), [], []), Env("m", None, map[], [], map[]), 1, State(map[], false)).vals == {"/a"}
  {
    var env := Env("m", None, map[], [], map[]);
    var st := State(map[], false);
    ReturnsOfH();
    BindsNothing(env, st);
    EvaluateCall(CALLS_H, Name("h"), [], [], env, 1, st);
    hide BindCall, EvalTargets;
    var inner := CalleeEnv(CALLS_H, FALLS_OFF, [], [], env, map[]);
    assert EvalList(CALLS_H, [Str("/a")], inner, 2, st).lists == [{"/a"}] by {
      assert [Str("/a")][1..] == [];
    }
    var rs := Expanded(CALLS_H, FALLS_OFF, [], [], env, 1, st);
    assert rs.lists == [{"/a"}];
    assert UnionAll([{"/a"}]) == {"/a"} by { assert [{"/a"}][1..] == []; }
  }

  lemma FormatsToA()
    ensures Evaluate(CALLS_H, FORMATS_H, Env("m", None, map[], [], map[]), 0, State(map[], false)).vals == {"/a"}
  {
    FoldsToA();
    var env, st := Env("m", None, map[], [], map[]), State(map[], false);
    var r := Evaluate(CALLS_H, Call(Name("h"), [], []), env, 1, st);
    hide EvalTargets, Targets, EvalName, Instance;
    assert EvalParts(CALLS_H, FORMATS_H.parts[1..], env, 1, r.st) == FoldList([], r.st);
    var rs := EvalParts(CALLS_H, FORMATS_H.parts, env, 1, st);
    assert rs.lists == [{"/a"}];
    OnlyChoice(CALLS_H, "/a", rs.st);
    hide Product;
    assert Evaluate(CALLS_H, FORMATS_H, env, 0, st) == Product(CALLS_H, rs.lists, rs.st);
  }

  /** One template listed alone is the whole product. */
  lemma OnlyChoice(p: Program, t: string, st: State)
    requires p.order({t}) == [t]
    ensures Product(p, [{t}], st).vals == {t}
  {
    assert Listed(p, [{t}]) == [[t]];
    assert [[t]][1..] == [] && [t][1..] == [];
    assert t + "" == t;
    assert Prefixed(t, [""]) == [t] && Cross([t], [""]) == [t] + Cross([], [""]);
    assert Combos([[t]]) == [t];
    hide Combos, Listed;
    var all := set x | x in [t];
    assert all == {t} && Product(p, [{t}], st).vals == OrHole(all);
  }

  lemma ReturnsOfH()
    ensures ReturnsOf(FALLS_OFF.body) == [Str("/a")]
  {
    assert [Return(Some(Str("/a")))][1..] == [] && [Pass][1..] == [] && FALLS_OFF.body[1..] == [];
    assert ReturnsOf([Return(Some(Str("/a")))]) == [Str("/a")];
    assert ReturnsOf([Pass]) == [];
    assert StmtReturns(FALLS_OFF.body[0]) == [Str("/a")];
  }

  lemma BindsNothing(env: Env, st: State)
    ensures BindCall(CALLS_H, FALLS_OFF, [], [], env, 1, st) == FoldMap(map[], st)
  {
    assert CallPairs(FALLS_OFF, [], []) == [];
    assert DefaultsLeft(FALLS_OFF.defaults, PairNames([])) == [];
  }

  // -- names that mean something else at run time ----------------------------------------------------

  const START := State(map[], false)
  const LEAF := Tr(0, VOther, map[], [])

  /** x = "/a" */
  const NAMES_X := Program(map[("m", "x") := Str("/a")], map[], map[("m", "x") := ("m", "x")], map[], NoOrder)

  /** def f(x): ... */
  const TAKES_X := Fn("m", "f", ["x"], [], [], [])

  /** A parameter the environment leaves unbound, named like a module constant: called with "/b" it
      folds to the constant's "/a". */
  lemma UnboundParameterUnsound()
    ensures Value(NAMES_X, Run, Frame("m", Some(TAKES_X), map["x" := VStr("/b")]), Name("x"), LEAF) == Some(VStr("/b"))
    ensures Evaluate(NAMES_X, Name("x"), ToolEnv(TAKES_X, map[], []), 0, START).vals == {"/a"}
    ensures forall t | t in {"/a"} :: !Instance(t, "/b")
  {
    HoleFreeInstance("/a", "/b");
    hide Instance, HoleFree, Evaluate;
    assert "x" in TAKES_X.params + TAKES_X.kwonly;
    assert NameValue(NAMES_X, Run, Frame("m", Some(TAKES_X), map["x" := VStr("/b")]), "x", LEAF) == Some(VStr("/b"));
    UnboundFold();
  }

  lemma UnboundFold()
    ensures Evaluate(NAMES_X, Name("x"), ToolEnv(TAKES_X, map[], []), 0, START).vals == {"/a"}
  {
    var env := ToolEnv(TAKES_X, map[], []);
    ConstantFold();
    var inner := Env("m", Some(TAKES_X), map[], [] + ["x"], map[]);
    assert EvalList(NAMES_X, [], inner, 1, START) == FoldList([], START);
    assert UnionAll([]) == {} && AssignmentsTo(TAKES_X.body, "x") == [];
    hide EvalConstant, EvalList;
    assert EvalName(NAMES_X, "x", env, 0, START) == EvalConstant(NAMES_X, ("m", "x"), START);
    hide EvalName;
    assert Evaluate(NAMES_X, Name("x"), env, 0, START) == EvalName(NAMES_X, "x", env, 0, START);
  }

  lemma ConstantFold()
    ensures EvalConstant(NAMES_X, ("m", "x"), START).vals == {"/a"}
  {
    hide EvalName, EvalSubscript, EvalParts, EvalList, EvalTargets;
  }

  /** def g(): return "/a" and def h(): return "/b" */
  function Returns(name: string, text: string): Fn {
    Fn("m", name, [], [], [], [Return(Some(Str(text)))])
  }

  const G_AND_H := Program(map[], map[("m", "g") := [Returns("g", "/a")], ("m", "h") := [Returns("h", "/b")]],
                           map[("m", "g") := ("m", "g"), ("m", "h") := ("m", "h")], map[], NoOrder)

  /** def f(g): ... */
  const TAKES_G := Fn("m", "f", ["g"], [], [], [])

  const F_OF_H := Frame("m", Some(TAKES_G), map["g" := VFun(("m", "h"))])

  /** A parameter that hides a module's function: f(h) calls h through g, but g() folds to what the
      module's g returns. */
  lemma HiddenFunctionUnsound()
    ensures exists u :: Value(G_AND_H, Run, F_OF_H, Call(Name("g"), [], []), u) == Some(VStr("/b"))
    ensures forall bound ::
      Evaluate(G_AND_H, Call(Name("g"), [], []), ToolEnv(TAKES_G, map["g" := bound], []), 0, START).vals == {"/a"}
    ensures forall t | t in {"/a"} :: !Instance(t, "/b")
  {
    HoleFreeInstance("/a", "/b");
    hide Instance, HoleFree, Evaluate;
    var fr := F_OF_H;
    assert "g" in TAKES_G.params + TAKES_G.kwonly;
    assert G_AND_H.functions[("m", "h")] == [Returns("h", "/b")];
    assert Callee(G_AND_H, fr, Name("g")) == Some(Returns("h", "/b"));
    var u := LiteralCall(G_AND_H, fr, Name("g"), "h", "/b");
    forall bound ensures
      Evaluate(G_AND_H, Call(Name("g"), [], []), ToolEnv(TAKES_G, map["g" := bound], []), 0, START).vals == {"/a"}
    {
      var env := ToolEnv(TAKES_G, map["g" := bound], []);
      assert G_AND_H.functions[("m", "g")] == [Returns("g", "/a")];
      assert Targets(G_AND_H, env, Name("g")) == [Returns("g", "/a")];
      LiteralFold(G_AND_H, env, Name("g"), "g", "/a");
    }
  }

  lemma LiteralCall(p: Program, fr: Frame, f: Expr, name: string, text: string) returns (u: Tr)
    requires Callee(p, fr, f) == Some(Returns(name, text))
    ensures Value(p, Run, fr, Call(f, [], []), u) == Some(VStr(text))
  {
    var fn := Returns(name, text);
    var stmt := Tr(1, VOther, map[], [LEAF, LEAF]);
    var body := Tr(1, VOther, map[], [stmt, LEAF]);
    u := Tr(0, VOther, map[], [LEAF, LEAF, body]);
    assert CallPairs(fn, [], []) == [] && DefaultsLeft(fn.defaults, PairNames([])) == [];
    assert Arguments(p, Run, fr, fn, [], [], u) == Some(map[]);
    LiteralBody(p, name, text, body);
    hide CallBody, Arguments, Callee;
    assert Value(p, Run, fr, Call(f, [], []), u) == CallBody(p, Run, Frame("m", Some(fn), map[]), u.kids[2]);
  }

  lemma LiteralBody(p: Program, name: string, text: string, body: Tr)
    requires body == Tr(1, VOther, map[], [Tr(1, VOther, map[], [LEAF, LEAF]), LEAF])
    ensures CallBody(p, Run, Frame("m", Some(Returns(name, text)), map[]), body) == Some(VStr(text))
  {
    var fr, fn := Frame("m", Some(Returns(name, text)), map[]), Returns(name, text);
    assert Value(p, Run, fr, Str(text), LEAF) == Some(VStr(text));
    assert ExecStmt(p, fr, fn.body[0], body.kids[0]) == Returned(VStr(text));
    assert Exec(p, fr, fn.body, body) == Returned(VStr(text));
  }

  lemma LiteralFold(p: Program, env: Env, f: Expr, name: string, text: string)
    requires Targets(p, env, f) == [Returns(name, text)] && env.stack == []
    ensures Evaluate(p, Call(f, [], []), env, 0, START).vals == {text}
  {
    hide Evaluate, EvalTargets, Targets, EvalList, EvalPairs, EvalName, EvalParts, EvalSubscript, Unmemoised, CallPairs,
      DefaultsLeft;
    var fn := Returns(name, text);
    EvaluateCall(p, f, [], [], env, 0, START);
    LiteralReturn(name, text);
    NothingBound(p, fn, env);
    OneLiteral(p, text, CalleeEnv(p, fn, [], [], env, map[]), 1, START);
  }

  lemma NothingBound(p: Program, fn: Fn, env: Env)
    requires CallPairs(fn, [], []) == [] && DefaultsLeft(fn.defaults, PairNames([])) == []
    ensures BindCall(p, fn, [], [], env, 0, START) == FoldMap(map[], START)
  {
    hide Evaluate, CallPairs, DefaultsLeft;
  }

  lemma LiteralReturn(name: string, text: string)
    ensures var fn := Returns(name, text);
      && ReturnsOf(fn.body) == [Str(text)]
      && CallPairs(fn, [], []) == [] && DefaultsLeft(fn.defaults, PairNames([])) == []
  {
    var fn := Returns(name, text);
    assert fn.body[1..] == [] && StmtReturns(fn.body[0]) == [Str(text)];
  }

  lemma OneLiteral(p: Program, text: string, env: Env, depth: nat, st: State)
    requires depth <= MAX_DEPTH
    ensures EvalList(p, [Str(text)], env, depth, st) == FoldList([{text}], st)
    ensures UnionAll([{text}]) == {text}
  {
    assert [Str(text)][1..] == [] && [{text}][1..] == [];
  }

  /** X = "/b" */
  const NAMES_CAPITAL_X := Program(map[("m", "X") := Str("/b")], map[("m", "h") := [DEFAULTS_TO_X]],
                                   map[("m", "X") := ("m", "X"), ("m", "h") := ("m", "h")], map[], NoOrder)

  /** def h(q=X): X = "/a"; return q */
  const DEFAULTS_TO_X := Fn("m", "h", ["q"], [], [("q", Name("X"))],
                            [Assign([TName("X")], Str("/a")), Return(Some(Name("q")))])

  /** A default that names a local of its function: it is evaluated where the function is defined, but
      folded inside it. */
  lemma DefaultLocalUnsound()
    ensures exists u :: Value(NAMES_CAPITAL_X, Run, ModuleFrame("m"), Call(Name("h"), [], []), u) == Some(VStr("/b"))
    ensures Evaluate(NAMES_CAPITAL_X, Call(Name("h"), [], []), Env("m", None, map[], [], map[]), 0, START).vals == {"/a"}
    ensures forall t | t in {"/a"} :: !Instance(t, "/b")
  {
    HoleFreeInstance("/a", "/b");
    hide Instance, HoleFree, Evaluate;
    var u := DefaultAtRunTime();
    DefaultFolded();
  }

  /** X is assigned, then q returned. */
  const DONE := Tr(1, VOther, map[], [LEAF, LEAF])
  const BODY_RUN := Tr(1, VOther, map[], [DONE, Tr(1, VOther, map[], [DONE, LEAF])])

  lemma DefaultAtRunTime() returns (u: Tr)
    ensures Value(NAMES_CAPITAL_X, Run, ModuleFrame("m"), Call(Name("h"), [], []), u) == Some(VStr("/b"))
  {
    hide CallBody, Arguments, CallPairs, DefaultsLeft, Exec;
    var fn, p := DEFAULTS_TO_X, NAMES_CAPITAL_X;
    var default := Tr(0, VOther, map[], [Tr(0, VOther, map[], [LEAF])]);
    u := Tr(0, VOther, map[], [LEAF, default, BODY_RUN]);
    DefaultBound(u);
    BodyReturnsQ(BODY_RUN);
    assert p.functions[("m", "h")] == [fn] && Callee(p, ModuleFrame("m"), Name("h")) == Some(fn);
    hide Callee;
  }

  lemma DefaultBound(u: Tr)
    requires |u.kids| == 3 && u.kids[0] == LEAF && u.kids[1].kids == [Tr(0, VOther, map[], [LEAF])]
    ensures Arguments(NAMES_CAPITAL_X, Run, ModuleFrame("m"), DEFAULTS_TO_X, [], [], u) == Some(map["q" := VStr("/b")])
  {
    var fn, p, fr, ts := DEFAULTS_TO_X, NAMES_CAPITAL_X, ModuleFrame("m"), u.kids[1].kids;
    var left: seq<(string, Expr)> := [("q", Name("X"))];
    LeftDefault();
    CapitalX(ts[0]);
    hide Value, DefaultsLeft, CallPairs;
    assert left[1..] == [] && ts[1..] == [];
    assert PairValues(p, Run, fr, left[1..], ts[1..]) == Some(map[]);
    assert PairValues(p, Run, fr, left, ts) == Some(map["q" := VStr("/b")]);
    assert PairValues(p, Run, fr, [], []) == Some(map[]);
    assert fn.params + fn.kwonly == ["q"] && AcceptedCall(fn, [], []);
    var vars: map<string, Val> := map["q" := VStr("/b")];
    assert vars + map[] == vars;
    assert forall x | x in vars :: IsParam(fn, x);
  }

  lemma CapitalX(t: Tr)
    requires t == Tr(0, VOther, map[], [LEAF])
    ensures Value(NAMES_CAPITAL_X, Run, ModuleFrame("m"), Name("X"), t) == Some(VStr("/b"))
  {
    var p, fr := NAMES_CAPITAL_X, ModuleFrame("m");
    assert Value(p, Run, fr, Str("/b"), LEAF) == Some(VStr("/b"));
    assert GlobalValue(p, Run, Some(("m", "X")), t) == Value(p, Run, fr, Str("/b"), t.kids[0]);
    assert NameValue(p, Run, fr, "X", t) == GlobalValue(p, Run, Some(("m", "X")), t);
  }

  lemma LeftDefault()
    ensures CallPairs(DEFAULTS_TO_X, [], []) == []
    ensures DefaultsLeft(DEFAULTS_TO_X.defaults, PairNames([])) == [("q", Name("X"))]
  {
    assert DEFAULTS_TO_X.defaults[1..] == [];
  }

  lemma BodyReturnsQ(t: Tr)
    requires t == BODY_RUN
    ensures CallBody(NAMES_CAPITAL_X, Run, Frame("m", Some(DEFAULTS_TO_X), map["q" := VStr("/b")]), t) == Some(VStr("/b"))
  {
    var fn, p := DEFAULTS_TO_X, NAMES_CAPITAL_X;
    var fr := Frame("m", Some(fn), map["q" := VStr("/b")]);
    var after := Frame("m", Some(fn), map["q" := VStr("/b"), "X" := VStr("/a")]);
    assert BindAll([TName("X")], VStr("/a"), fr.vars, map[]) == after.vars by { assert [TName("X")][1..] == []; }
    assert ExecStmt(p, fr, fn.body[0], t.kids[0]) == Normal(after.vars);
    assert "q" in fn.params + fn.kwonly;
    assert NameValue(p, Run, after, "q", LEAF) == Some(VStr("/b"));
    assert ExecStmt(p, after, fn.body[1], t.kids[1].kids[0]) == Returned(VStr("/b"));
    assert fn.body[1..][0] == fn.body[1];
    assert Exec(p, after, fn.body[1..], t.kids[1]) == Returned(VStr("/b"));
  }

  lemma DefaultFolded()
    ensures Evaluate(NAMES_CAPITAL_X, Call(Name("h"), [], []), Env("m", None, map[], [], map[]), 0, START).vals == {"/a"}
  {
    var fn, p := DEFAULTS_TO_X, NAMES_CAPITAL_X;
    var env := Env("m", None, map[], [], map[]);
    assert p.functions[("m", "h")] == [fn] && Targets(p, env, Name("h")) == [fn];
    EvaluateCall(p, Name("h"), [], [], env, 0, START);
    hide Evaluate, EvalTargets, Targets;
    LeftDefault();
    DefaultInside();
    var bound := map["q" := {"/a"}];
    assert BindCall(p, fn, [], [], env, 0, START) == FoldMap(bound, START);
    var inner := CalleeEnv(p, fn, [], [], env, bound);
    ReturnsQ();
    assert EvalName(p, "q", inner, 1, START) == Fold({"/a"}, START);
    assert EvalList(p, [Name("q")], inner, 1, START) == FoldList([{"/a"}], START) by { NameOnly(p, "q", inner, 1, START); }
    OneLiteral(p, "/a", inner, 1, START);
  }

  lemma NameOnly(p: Program, id: string, env: Env, depth: nat, st: State)
    requires depth <= MAX_DEPTH && EvalName(p, id, env, depth, st).st == st
    ensures EvalList(p, [Name(id)], env, depth, st) == FoldList([EvalName(p, id, env, depth, st).vals], st)
  {
    hide EvalName;
    assert [Name(id)][1..] == [];
  }

  lemma ReturnsQ()
    ensures ReturnsOf(DEFAULTS_TO_X.body) == [Name("q")] && AssignmentsTo(DEFAULTS_TO_X.body, "X") == [Str("/a")]
  {
    var body := DEFAULTS_TO_X.body;
    assert body[1..] == [Return(Some(Name("q")))] && body[1..][1..] == [];
    assert StmtReturns(body[0]) == [] && StmtReturns(body[1]) == [Name("q")];
    assert BindChain([TName("X")], Str("/a"), "X") == [Str("/a")] by { assert [TName("X")][1..] == []; }
    assert StmtAssignments(body[0], "X") == [Str("/a")] && StmtAssignments(body[1], "X") == [];
  }

  /** Inside h the default X is the local. */
  lemma DefaultInside()
    ensures var env := Env("m", Some(DEFAULTS_TO_X), map[], [] + ["h"], map[]);
      EvalPairs(NAMES_CAPITAL_X, [("q", Name("X"))], env, 1, map[], START) == FoldMap(map["q" := {"/a"}], START)
  {
    var p, env := NAMES_CAPITAL_X, Env("m", Some(DEFAULTS_TO_X), map[], [] + ["h"], map[]);
    ReturnsQ();
    var inner := Env("m", Some(DEFAULTS_TO_X), map[], [] + ["h"] + ["X"], map[]);
    OneLiteral(p, "/a", inner, 2, START);
    hide EvalList;
    assert EvalName(p, "X", env, 1, START) == Fold({"/a"}, START);
    hide EvalName;
    assert Evaluate(p, Name("X"), env, 1, START) == Fold({"/a"}, START);
    assert [("q", Name("X"))][1..] == [];
  }

  /** X = {"k": "/a", "k": "/b"} */
  const REPEATS_K := Program(map[("m", "X") := DictDisplay([(Some("k"), Str("/a")), (Some("k"), Str("/b"))])], map[],
                             map[("m", "X") := ("m", "X")], map[], NoOrder)

  /** A dictionary display that repeats a key: the last entry counts, the first is folded. */
  lemma RepeatedKeyUnsound()
    ensures exists u :: Value(REPEATS_K, Run, ModuleFrame("m"), Index("X", Some("k")), u) == Some(VStr("/b"))
    ensures Evaluate(REPEATS_K, Index("X", Some("k")), Env("m", None, map[], [], map[]), 0, START).vals == {"/a"}
    ensures forall t | t in {"/a"} :: !Instance(t, "/b")
  {
    HoleFreeInstance("/a", "/b");
    hide Instance, HoleFree;
    hide Evaluate;
    RepeatedAtRunTime(Tr(1, VOther, map[], [LEAF]));
    RepeatedFold();
  }

  lemma RepeatedAtRunTime(u: Tr)
    requires u == Tr(1, VOther, map[], [LEAF])
    ensures Value(REPEATS_K, Run, ModuleFrame("m"), Index("X", Some("k")), u) == Some(VStr("/b"))
  {
    var entries := REPEATS_K.constants[("m", "X")].entries;
    assert MayHit(entries, 1, Some("k"));
    assert Value(REPEATS_K, Run, ModuleFrame("m"), entries[1].1, u.kids[0]) == Some(VStr("/b"));
  }

  lemma RepeatedFold()
    ensures Evaluate(REPEATS_K, Index("X", Some("k")), Env("m", None, map[], [], map[]), 0, START).vals == {"/a"}
  {
    var p, env, there := REPEATS_K, Env("m", None, map[], [], map[]), Env("m", None, map[], [], map[]);
    var entries := p.constants[("m", "X")].entries;
    assert FirstWithKey(entries, "k") == 0;
    assert Evaluate(p, entries[0].1, there, 1, START) == Fold({"/a"}, START);
    hide EvalList, EvalName, EvalParts, EvalTargets;
    assert EvalSubscript(p, "X", Some("k"), env, 0, START) == Evaluate(p, entries[0].1, there, 1, START);
  }

  /** def f(): x = "/a"; x += "/b"; ... */
  const AUGMENTS := Fn("m", "f", [], [], [], [Assign([TName("x")], Str("/a")), AugAssign(TName("x"), Str("/b")), Pass])

  /** An augmented assignment: x comes to hold "/a/b", but folds to the two parts. */
  lemma AugmentedUnsound()
    ensures !Plain(AUGMENTS, "x")
    ensures exists run, at ::
      var o := Exec(EMPTY_PROGRAM, Frame("m", Some(AUGMENTS), map[]), AUGMENTS.body, run);
      && o.Left? && Value(EMPTY_PROGRAM, Run, Frame("m", Some(AUGMENTS), o.vars), Name("x"), at) == Some(VStr("/a/b"))
    ensures Evaluate(EMPTY_PROGRAM, Name("x"), ToolEnv(AUGMENTS, map[], []), 0, START).vals == {"/a", "/b"}
    ensures forall t | t in {"/a", "/b"} :: !Instance(t, "/a/b")
  {
    HoleFreeInstance("/a", "/a/b");
    HoleFreeInstance("/b", "/a/b");
    hide Instance, HoleFree, Evaluate, Exec;
    AugmentedRun();
    AugmentedFold();
  }

  lemma AugmentedAssignments()
    ensures AssignmentsTo(AUGMENTS.body, "x") == [Str("/a"), Str("/b")] && !Plain(AUGMENTS, "x")
  {
    var body := AUGMENTS.body;
    assert body[1..][1..] == [Pass] && [Pass][1..] == [];
    assert BindChain([TName("x")], Str("/a"), "x") == [Str("/a")] by { assert [TName("x")][1..] == []; }
    assert StmtAssignments(body[0], "x") == [Str("/a")] && StmtAssignments(body[1], "x") == [Str("/b")];
    assert StmtAssignments(Pass, "x") == [] && AssignmentsTo([Pass], "x") == [];
    assert AssignmentsTo(body[1..], "x") == [Str("/b")] + AssignmentsTo([Pass], "x");
    assert StmtAugmented(body[1], "x");
  }

  lemma AugmentedRun()
    ensures exists run, at ::
      var o := Exec(EMPTY_PROGRAM, Frame("m", Some(AUGMENTS), map[]), AUGMENTS.body, run);
      && o.Left? && Value(EMPTY_PROGRAM, Run, Frame("m", Some(AUGMENTS), o.vars), Name("x"), at) == Some(VStr("/a/b"))
  {
    var fr, body := Frame("m", Some(AUGMENTS), map[]), AUGMENTS.body;
    var stmt := Tr(1, VOther, map[], [LEAF, LEAF]);
    var rest := Tr(1, VOther, map[], [stmt, LEAF]);
    var run := Tr(1, VOther, map[], [stmt, rest]);
    var mid, end := fr.(vars := map["x" := VStr("/a")]), fr.(vars := map["x" := VStr("/a/b")]);
    assert BindAll([TName("x")], VStr("/a"), map[], map[]) == mid.vars by { assert [TName("x")][1..] == []; }
    assert ExecStmt(EMPTY_PROGRAM, fr, body[0], stmt) == Normal(mid.vars);
    assert "/a" + "/b" == "/a/b";
    assert AddTo(TName("x"), VStr("/b"), mid.vars, map[]) == Normal(end.vars) by {
      assert mid.vars["x" := VStr("/a/b")] == end.vars;
    }
    assert ExecStmt(EMPTY_PROGRAM, mid, body[1], stmt) == Normal(end.vars);
    assert body[1..][0] == body[1] && body[1..][1..] == [Pass];
    assert Exec(EMPTY_PROGRAM, end, [Pass], LEAF) == Left(end.vars);
    assert Exec(EMPTY_PROGRAM, mid, body[1..], rest) == Left(end.vars);
    var o := Exec(EMPTY_PROGRAM, fr, body, run);
    assert o == Left(end.vars);
    hide Exec, ExecStmt;
    AugmentedAssignments();
    assert FrameLocal(end, "x");
    assert NameValue(EMPTY_PROGRAM, Run, end, "x", LEAF) == Some(VStr("/a/b"));
    assert Value(EMPTY_PROGRAM, Run, Frame("m", Some(AUGMENTS), o.vars), Name("x"), LEAF) == Some(VStr("/a/b"));
  }

  lemma AugmentedFold()
    ensures Evaluate(EMPTY_PROGRAM, Name("x"), ToolEnv(AUGMENTS, map[], []), 0, START).vals == {"/a", "/b"}
  {
    AugmentedAssignments();
    var p, env := EMPTY_PROGRAM, ToolEnv(AUGMENTS, map[], []);
    var inner := Env("m", Some(AUGMENTS), map[], [] + ["x"], map[]);
    var es := [Str("/a"), Str("/b")];
    OneLiteral(p, "/b", inner, 1, START);
    assert es[1..] == [Str("/b")];
    assert Evaluate(p, es[0], inner, 1, START) == Fold({"/a"}, START);
    assert EvalList(p, es, inner, 1, START).lists == [{"/a"}] + [{"/b"}];
    assert ([{"/a"}] + [{"/b"}])[1..] == [{"/b"}];
    hide EvalList;
    assert EvalName(p, "x", env, 0, START).vals == {"/a", "/b"};
  }
}
