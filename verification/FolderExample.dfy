/** A program that meets the hypotheses of the folder's theorems: one module with a constant and a
    helper, and a tool that calls the helper. */
module FolderExample {
  import opened Options
  import opened PySyntax
  import opened PySemantics
  import opened Folder
  import opened FolderSound
  import opened FolderTheorems
  import opened FolderExact

  /** One way to list a set. */
  ghost function Listing(s: set<string>): seq<string> {
    if s == {} then [] else var x :| x in s; [x] + Listing(s - {x})
  }

  lemma {:induction false} ListingLists(s: set<string>)
    ensures SameElements(Listing(s), s)
  {
    if s == {} {
    } else {
      var x :| x in s && Listing(s) == [x] + Listing(s - {x});
      ListingLists(s - {x});
      forall y ensures y in Listing(s) <==> y in s {
        assert y in Listing(s) <==> y == x || y in Listing(s - {x});
      }
    }
  }

  lemma ListingOne(t: string)
    ensures Listing({t}) == [t]
  {
    ListingLists({t});
    var x :| x in {t} && Listing({t}) == [x] + Listing({t} - {x});
    assert {t} - {x} == {};
  }

  /** f"{BASE}/{x}" */
  const URL_PARTS: seq<Part> := [Field(Name("BASE"), false), Text("/"), Field(Name("x"), false)]

  /** def h(x): return f"{BASE}/{x}" */
  const URL_OF := Fn("m", "h", ["x"], [], [], [Return(Some(FString(URL_PARTS)))])

  /** def tool(): ... h("b") ... */
  const TOOL := Fn("m", "tool", [], [], [], [])
  const CALL := Call(Name("h"), [Str("b")], [])
  const FRESH := State(map[], false)

  /** BASE = "/a" and h in one module. */
  ghost function Example(): Program {
    Program(map[("m", "BASE") := Str("/a")], map[("m", "h") := [URL_OF]],
            map[("m", "BASE") := ("m", "BASE"), ("m", "h") := ("m", "h")], map[], s => Listing(s))
  }

  const REACHED: Scope := Scope({Definition(("m", "BASE")), Definition(("m", "h"))}, {Definition(("m", "h"))})

  lemma ExampleParts()
    ensures Example().constants.Keys == {("m", "BASE")} && Example().constants[("m", "BASE")] == Str("/a")
    ensures Example().functions.Keys == {("m", "h")} && Example().functions[("m", "h")] == [URL_OF]
    ensures ReturnsOf(URL_OF.body) == [FString(URL_PARTS)] && !MayReturnNone(URL_OF)
    ensures forall x :: AssignmentsTo(URL_OF.body, x) == [] && !Augmented(URL_OF.body, x)
    ensures forall s :: Example().order(s) == Listing(s)
  {
    UrlOfShape();
    assert "BASE"[0] != "h"[0];
  }

  lemma UrlOfShape()
    ensures ReturnsOf(URL_OF.body) == [FString(URL_PARTS)] && !MayReturnNone(URL_OF)
    ensures forall x :: AssignmentsTo(URL_OF.body, x) == [] && !Augmented(URL_OF.body, x)
  {
    var body := URL_OF.body;
    assert body[1..] == [];
    assert StmtReturns(body[0]) == [FString(URL_PARTS)];
    assert StmtAlwaysReturns(body[0]) && !StmtBareReturn(body[0]) && !BareReturn(body[1..]);
    forall x ensures AssignmentsTo(body, x) == [] && !Augmented(body, x) {
      assert StmtAssignments(body[0], x) == [] && !StmtAugmented(body[0], x) && !Augmented(body[1..], x);
    }
  }

  lemma ExampleInScope()
    ensures GoodScope(Example(), REACHED) && Foldable(Example(), REACHED, Place("m", Some(TOOL)), CALL)
  {
    ExampleParts();
    var p, sc := Example(), REACHED;
    hide Example, ReturnsOf, AssignmentsTo;
    forall s: set<string> ensures SameElements(p.order(s), s) { ListingLists(s); }
    UrlFoldable();
    assert GoodDefinition(p, sc, ("m", "BASE"));
    assert GoodDefinition(p, sc, ("m", "h"));
    hide GoodDefinition;
    forall item | item in sc.items
      ensures item == Definition(("m", "BASE")) || item == Definition(("m", "h")) {}
  }

  lemma ExampleNames()
    ensures forall id :: Resolve(Example(), "m", id) == if id == "BASE" || id == "h" then Some(("m", id)) else None
  {}

  lemma NamesFoldable(id: string)
    requires id == "BASE" || id == "x"
    ensures var at := Place("m", Some(URL_OF));
      Foldable(Example(), REACHED, at, Name(id)) && Solid(Example(), REACHED, at, Name(id))
  {
    hide Listing, MayReturnNone, ReturnsOf;
    ExampleParts();
    assert ("m", "BASE") in Example().constants.Keys;
    ExampleNames();
    hide Example;
    assert URL_OF.params + URL_OF.kwonly == ["x"];
  }

  lemma UrlFoldable()
    ensures FoldableFn(Example(), REACHED, URL_OF) && SolidFn(Example(), REACHED, URL_OF)
    ensures Foldable(Example(), REACHED, Place("m", Some(TOOL)), CALL)
  {
    hide MayReturnNone, Listing, Example, ReturnsOf, AssignmentsTo, Augmented;
    UrlOfShape();
    var p, sc, at := Example(), REACHED, Place("m", Some(URL_OF));
    PartsFoldable();
    assert Solid(p, sc, at, FString(URL_PARTS));
    CallFoldable();
    hide Foldable, Solid;
  }

  lemma PartsFoldable()
    ensures Foldable(Example(), REACHED, Place("m", Some(URL_OF)), FString(URL_PARTS))
  {
    FormattedFoldable();
    hide Example, Solid;
  }

  lemma FormattedFoldable()
    ensures forall i :: 0 <= i < |URL_PARTS| && URL_PARTS[i].Field? ==>
      Foldable(Example(), REACHED, Place("m", Some(URL_OF)), URL_PARTS[i].expr)
      && Solid(Example(), REACHED, Place("m", Some(URL_OF)), URL_PARTS[i].expr)
  {
    hide Example, Foldable, Solid;
    NamesFoldable("BASE");
    NamesFoldable("x");
  }

  lemma CallFoldable()
    ensures Foldable(Example(), REACHED, Place("m", Some(TOOL)), CALL)
  {
    ExampleNames();
    hide Example;
    assert TOOL.params + TOOL.kwonly == [];
    assert Foldable(Example(), REACHED, Place("m", Some(TOOL)), Name("h"));
  }

  lemma ExampleFold()
    ensures var r := Evaluate(Example(), CALL, ToolEnv(TOOL, map[], []), 0, FRESH);
      r.vals == {"/a/b"} && !r.st.capped
  {
    hide Evaluate, EvalTargets, EvalList, EvalParts, EvalName, EvalSubscript, Unmemoised, Product, CallPairs, DefaultsLeft;
    var p, env := Example(), ToolEnv(TOOL, map[], []);
    ExampleTarget(env);
    EvaluateCall(p, Name("h"), [Str("b")], [], env, 0, FRESH);
    hide Targets, Example;
    ExampleBound();
    UrlOfShape();
    var inner := CalleeEnv(p, URL_OF, [Str("b")], [], env, map["x" := {"b"}]);
    ExampleReturn(inner);
    assert UnionAll([{"/a/b"}]) == {"/a/b"} by { assert [{"/a/b"}][1..] == []; }
  }

  lemma ExampleTarget(env: Env)
    requires env.modl == "m"
    ensures Targets(Example(), env, Name("h")) == [URL_OF]
  {
    ExampleParts();
    assert ("m", "h") in Example().functions.Keys;
  }

  lemma ExampleBound()
    ensures BindCall(Example(), URL_OF, [Str("b")], [], ToolEnv(TOOL, map[], []), 0, FRESH)
      == FoldMap(map["x" := {"b"}], FRESH)
  {
    var p, env := Example(), ToolEnv(TOOL, map[], []);
    var pairs: seq<(string, Expr)> := [("x", Str("b"))];
    assert CallPairs(URL_OF, [Str("b")], []) == pairs;
    assert pairs[1..] == [];
    hide EvalTargets, EvalName, EvalParts, EvalList, EvalSubscript;
    assert EvalPairs(p, pairs, env, 1, map[], FRESH) == FoldMap(map["x" := {"b"}], FRESH);
    assert DefaultsLeft(URL_OF.defaults, PairNames(pairs)) == [];
  }

  lemma ExampleReturn(env: Env)
    requires env.modl == "m" && env.fn == Some(URL_OF) && env.bindings == map["x" := {"b"}] && env.stack == [] + ["h"]
    ensures var r := EvalList(Example(), [FString(URL_PARTS)], env, 1, FRESH); r.lists == [{"/a/b"}] && !r.st.capped
  {
    var p := Example();
    ExampleUrl(env);
    hide Evaluate, Example;
    assert [FString(URL_PARTS)][1..] == [];
  }

  lemma ExampleUrl(env: Env)
    requires env.modl == "m" && env.fn == Some(URL_OF) && env.bindings == map["x" := {"b"}] && env.stack == [] + ["h"]
    ensures var r := Evaluate(Example(), FString(URL_PARTS), env, 1, FRESH); r.vals == {"/a/b"} && !r.st.capped
  {
    hide Example, EvalName, EvalConstant, EvalTargets, EvalList, EvalParts, Evaluate, Product, EvalSubscript, Unmemoised;
    var p := Example();
    ExampleBase(env);
    var base := EvalName(p, "BASE", env, 2, FRESH);
    var rest := URL_PARTS[1..];
    assert rest == [Text("/"), Field(Name("x"), false)] && rest[1..] == [Field(Name("x"), false)] && rest[1..][1..] == [];
    BoundName(p, "x", env, 2, base.st);
    NoMoreParts(p, env, 2, base.st);
    FieldPart(p, rest[1..], "x", env, 2, base.st);
    TextPart(p, rest, env, 2, base.st);
    FieldPart(p, URL_PARTS, "BASE", env, 2, FRESH);
    var r := EvalParts(p, URL_PARTS, env, 2, FRESH);
    assert r.lists == [{"/a"}, {"/"}, {"b"}] && r.st == base.st;
    ThreeChoices(r.st);
    FStringIsProduct(p, URL_PARTS, env, 1, FRESH);
  }

  lemma FieldPart(p: Program, parts: seq<Part>, id: string, env: Env, depth: nat, st: State)
    requires parts != [] && parts[0] == Field(Name(id), false) && depth <= MAX_DEPTH
    ensures var r := EvalName(p, id, env, depth, st);
      var rest := EvalParts(p, parts[1..], env, depth, r.st);
      EvalParts(p, parts, env, depth, st) == FoldList([r.vals] + rest.lists, rest.st)
  {
    hide EvalName;
    assert Evaluate(p, Name(id), env, depth, st) == EvalName(p, id, env, depth, st);
  }

  lemma TextPart(p: Program, parts: seq<Part>, env: Env, depth: nat, st: State)
    requires parts != [] && parts[0].Text? && depth <= MAX_DEPTH
    ensures var rest := EvalParts(p, parts[1..], env, depth, st);
      EvalParts(p, parts, env, depth, st) == FoldList([{parts[0].text}] + rest.lists, rest.st)
  {}

  lemma NoMoreParts(p: Program, env: Env, depth: nat, st: State)
    requires depth <= MAX_DEPTH
    ensures EvalParts(p, [], env, depth, st) == FoldList([], st)
  {}

  lemma FStringIsProduct(p: Program, parts: seq<Part>, env: Env, depth: nat, st: State)
    requires depth < MAX_DEPTH
    ensures var r := EvalParts(p, parts, env, depth + 1, st);
      Evaluate(p, FString(parts), env, depth, st) == Product(p, r.lists, r.st)
  {
    hide EvalParts, Product;
  }

  lemma BoundName(p: Program, id: string, env: Env, depth: nat, st: State)
    requires id in env.bindings && depth <= MAX_DEPTH
    ensures EvalName(p, id, env, depth, st) == Fold(env.bindings[id], st)
  {}

  lemma ExampleBase(env: Env)
    requires env.modl == "m" && env.fn == Some(URL_OF) && env.bindings == map["x" := {"b"}] && env.stack == [] + ["h"]
    ensures var r := EvalName(Example(), "BASE", env, 2, FRESH); r.vals == {"/a"} && !r.st.capped
  {
    hide EvalConstant, AssignmentsTo, EvalTargets, EvalParts, EvalSubscript, Unmemoised, MayReturnNone, ReturnsOf, Listing;
    ExampleParts();
    var p := Example();
    LiteralConstant(p, ("m", "BASE"), "/a");
    assert "BASE" !in env.bindings && "BASE" !in env.stack;
    var inner := Env("m", env.fn, env.bindings, env.stack + ["BASE"], map[]);
    assert EvalList(p, [], inner, 3, FRESH) == FoldList([], FRESH);
  }

  lemma ThreeChoices(st: State)
    requires !st.capped
    ensures Product(Example(), [{"/a"}, {"/"}, {"b"}], st) == Fold({"/a/b"}, st)
  {
    ExampleParts();
    var p, lists := Example(), [{"/a"}, {"/"}, {"b"}];
    ListingOne("/a");
    ListingOne("/");
    ListingOne("b");
    hide Listing, Example;
    var listed := Listed(p, lists);
    assert listed == [["/a"], ["/"], ["b"]];
    OneCombo("/a", "/", "b");
    hide Combos;
    var all := set x | x in ["/a/b"];
    assert "/a" + ("/" + "b") == "/a/b";
    assert all == {"/a/b"};
  }

  lemma OneCombo(a: string, b: string, c: string)
    ensures Combos([[a], [b], [c]]) == [a + (b + c)]
  {
    assert [[a], [b], [c]][1..] == [[b], [c]] && [[b], [c]][1..] == [[c]] && [[c]][1..] == [];
    CrossOne(c, "");
    CrossOne(b, c);
    CrossOne(a, b + c);
    hide Cross;
    assert c + "" == c;
    assert Combos([[c]]) == [c];
    assert Combos([[b], [c]]) == [b + c];
  }

  lemma CrossOne(a: string, b: string)
    ensures Cross([a], [b]) == [a + b]
  {
    assert [a][1..] == [] && Prefixed(a, [b]) == [a + b];
  }

  lemma LiteralConstant(p: Program, key: Key, s: string)
    requires key in p.constants && p.constants[key] == Str(s)
    ensures EvalConstant(p, key, FRESH).vals == {s} && !EvalConstant(p, key, FRESH).st.capped
  {
    hide Unmemoised, EvalName, EvalSubscript, EvalParts, EvalList, EvalTargets;
  }

  /** BASE ranks below the helper that uses it. */
  function ExampleRank(item: Item): nat {
    if item == Definition(("m", "BASE")) then 0 else 1
  }

  lemma BaseIsText()
    ensures TextConstant(Example(), ExampleRank, ("m", "BASE"), true) && TextConstant(Example(), ExampleRank, ("m", "BASE"), false)
  {
    hide Listing, ReturnsOf, AssignmentsTo, MayReturnNone;
    ExampleParts();
    assert ("m", "BASE") in Example().constants.Keys;
    hide Example;
  }

  /** Where the helper's return stands when it is called. */
  const INSIDE := Spot("m", Some(URL_OF), Some(URL_OF), ["h"], {"x"}, {"x"}, map[])

  lemma NameIsText(id: string)
    requires id == "BASE" || id == "x"
    ensures TextExpr(Example(), ExampleRank, 1, 38, INSIDE, true, Name(id))
  {
    hide Listing, ReturnsOf, MayReturnNone, TextConstant;
    ExampleParts();
    BaseIsText();
    ExampleNames();
    assert ("m", "BASE") in Example().constants.Keys;
    hide Example;
    assert URL_OF.params + URL_OF.kwonly == ["x"] && "x" in ["x"];
    assert id == "BASE" ==> id !in ["x"] && id !in ["h"];
  }

  lemma UrlIsText()
    ensures TextExpr(Example(), ExampleRank, 1, 39, INSIDE, true, FString(URL_PARTS))
  {
    NameIsText("BASE");
    NameIsText("x");
    FStringIsText();
  }

  lemma FStringIsText()
    requires TextExpr(Example(), ExampleRank, 1, 38, INSIDE, true, Name("BASE"))
    requires TextExpr(Example(), ExampleRank, 1, 38, INSIDE, true, Name("x"))
    ensures TextExpr(Example(), ExampleRank, 1, 39, INSIDE, true, FString(URL_PARTS))
  {
    hide Example, TextRef, TextConstant, LocalTo, Open, AssignmentsTo;
    forall i | 0 <= i < |URL_PARTS| && URL_PARTS[i].Field?
      ensures !URL_PARTS[i].spec && (URL_PARTS[i].expr == Name("BASE") || URL_PARTS[i].expr == Name("x")) {}
  }

  lemma SpotInside()
    ensures var pairs := [("x", Str("b"))];
      CallPairs(URL_OF, [Str("b")], []) == pairs && CalleeSpot(Example(), ModuleSpot("m"), URL_OF, pairs, []) == INSIDE
  {
    hide Example;
    var p := Example();
    var pairs: seq<(string, Expr)> := [("x", Str("b"))];
    assert pairs[1..] == [] && Callables(p, Env("m", None, map[], [], map[]), pairs) == map[];
    assert PairNames(pairs) == {"x"} by { PairNamesCons(pairs); NoNames(); }
    NoNames();
    var texts := set i | 0 <= i < |pairs| && RefOf(p, "m", map[], pairs[i].1).None? :: pairs[i].0;
    assert RefOf(p, "m", map[], pairs[0].1).None? && pairs[0].0 in texts;
    assert texts == {"x"};
    assert [] + ["h"] == ["h"];
  }

  lemma CallIsText()
    ensures TextExpr(Example(), ExampleRank, 2, 40, ModuleSpot("m"), true, CALL)
  {
    var p, at := Example(), ModuleSpot("m");
    HelperCallIsText();
    ExampleParts();
    ExampleNames();
    assert ("m", "h") in p.functions.Keys && ("m", "h") !in p.constants.Keys;
    hide Example, TextCall, ReturnsOf, AssignmentsTo, MayReturnNone;
    assert RefOf(p, "m", map[], Name("h")) == Some(("m", "h")) && RefOk(p, at, Name("h"));
  }

  lemma HelperCallIsText()
    ensures TextCall(Example(), ExampleRank, 2, 1, 39, ModuleSpot("m"), true, URL_OF, [Str("b")], [])
  {
    hide Example, TextExpr, ReturnsOf, MayReturnNone, CalleeSpot, AssignmentsTo, CallPairs;
    var p, at := Example(), ModuleSpot("m");
    var pairs: seq<(string, Expr)> := [("x", Str("b"))];
    UrlOfShape();
    SpotInside();
    UrlIsText();
    ArgumentIsText();
    NoNames();
    PairNamesCons(pairs);
    assert pairs[1..] == [] && PairNames(pairs) == {"x"};
    assert DefaultsLeft(URL_OF.defaults, PairNames(pairs)) == [];
    assert URL_OF.params + URL_OF.kwonly == ["x"] && IsParam(URL_OF, "x");
  }

  lemma ArgumentIsText()
    ensures TextArgument(Example(), ExampleRank, 2, 39, ModuleSpot("m"), Str("b"))
  {
    hide Example;
  }

  /** The hypotheses of soundness and exactness can be met, and then say something: in a module with
      a constant and a helper, a call of the helper is in scope and folds, uncut, to its one URL. */
  lemma HypothesesMet() returns (p: Program, rank: Item -> nat)
    ensures ListsSets(p) && ("m", "BASE") in p.constants && TextConstant(p, rank, ("m", "BASE"), false)
    ensures TextExpr(p, rank, 2, 40, ModuleSpot("m"), true, CALL)
    ensures !EvalConstant(p, ("m", "BASE"), FRESH).st.capped
    ensures GoodScope(p, REACHED) && Foldable(p, REACHED, Place("m", Some(TOOL)), CALL)
    ensures ArgumentsFit(p, TOOL, map[], map[]) && MemoSound(p, FRESH)
    ensures var r := Evaluate(p, CALL, ToolEnv(TOOL, map[], []), 0, FRESH); r.vals == {"/a/b"} && !r.st.capped
  {
    hide Evaluate, EvalConstant, GoodScope, Foldable, Example, Listing, MemoSound, TextConstant, TextExpr, ListsSets, ReturnsOf,
      AssignmentsTo, MayReturnNone;
    p := Example();
    rank := ExampleRank;
    ExampleParts();
    assert ("m", "BASE") in p.constants.Keys;
    ExampleInScope();
    ExampleFold();
    LiteralConstant(p, ("m", "BASE"), "/a");
    EmptyMemoSound(p);
    ExampleLists();
    BaseIsText();
    CallIsText();
  }

  lemma ExampleLists()
    ensures ListsSets(Example())
  {
    forall s: set<string> ensures SameElements(Example().order(s), s) { ListingLists(s); }
  }

  // -- a lookup ------------------------------------------------------------------------------------

  /** PATHS = {"move": "/m", "copy": "/c"} */
  const PATHS: seq<(Option<string>, Expr)> := [(Some("move"), Str("/m")), (Some("copy"), Str("/c"))]

  ghost function LookupProgram(): Program {
    Program(map[("m", "PATHS") := DictDisplay(PATHS)], map[], map[("m", "PATHS") := ("m", "PATHS")], map[], s => Listing(s))
  }

  lemma LookupParts()
    ensures Resolve(LookupProgram(), "m", "PATHS") == Some(("m", "PATHS"))
    ensures IsDict(LookupProgram(), Some(("m", "PATHS"))) && LookupProgram().constants[("m", "PATHS")] == DictDisplay(PATHS)
    ensures ListsSets(LookupProgram())
  {
    forall s: set<string> ensures SameElements(LookupProgram().order(s), s) { ListingLists(s); }
  }

  /** A lookup meets the hypotheses of exactness, and folds to both entries for a run-time key and to its own
      for a literal one. */
  lemma LookupFolds()
    ensures var p, env := LookupProgram(), Env("m", None, map[], [], map[]);
      && ListsSets(p) && TextExpr(p, (i: Item) => 0, 1, 40, ModuleSpot("m"), false, Index("PATHS", None))
      && TextExpr(p, (i: Item) => 0, 1, 40, ModuleSpot("m"), true, Index("PATHS", Some("copy")))
      && Evaluate(p, Index("PATHS", None), env, 0, FRESH) == Fold({"/m", "/c"}, FRESH)
      && Evaluate(p, Index("PATHS", Some("copy")), env, 0, FRESH) == Fold({"/c"}, FRESH)
  {
    hide LookupProgram, Listing, EvalList, EvalSubscript, Evaluate, TextExpr;
    LookupParts();
    LookupIsText(None, false);
    LookupIsText(Some("copy"), true);
    var p, env := LookupProgram(), Env("m", None, map[], [], map[]);
    EvaluateForms(p, "", [], "PATHS", None, env, 0, FRESH);
    EvaluateForms(p, "", [], "PATHS", Some("copy"), env, 0, FRESH);
    AllEntries();
    OwnEntry();
  }

  lemma LookupIsText(key: Option<string>, one: bool)
    requires (key == None && !one) || (key == Some("copy") && one)
    ensures TextExpr(LookupProgram(), (i: Item) => 0, 1, 40, ModuleSpot("m"), one, Index("PATHS", key))
  {
    LookupParts();
    hide LookupProgram, Listing;
    assert PATHS[1].0 == Some("copy") && PATHS[0].0 == Some("move") && "move" != "copy";
    assert LiteralKeys(PATHS);
  }

  lemma AllEntries()
    ensures EvalSubscript(LookupProgram(), "PATHS", None, Env("m", None, map[], [], map[]), 0, FRESH) == Fold({"/m", "/c"}, FRESH)
  {
    LookupParts();
    var p, there := LookupProgram(), Env("m", None, map[], [], map[]);
    hide LookupProgram, Listing, Unmemoised, EvalName, EvalParts, EvalTargets;
    var es := EntryValues(PATHS);
    assert es == [Str("/m"), Str("/c")] && es[1..] == [Str("/c")] && es[1..][1..] == [];
    var lists: seq<set<string>> := [{"/m"}, {"/c"}];
    assert EvalList(p, es[1..][1..], there, 1, FRESH) == FoldList([], FRESH);
    assert EvalList(p, es[1..], there, 1, FRESH) == FoldList([{"/c"}], FRESH);
    assert EvalList(p, es, there, 1, FRESH) == FoldList(lists, FRESH);
    assert lists[1..] == [{"/c"}] && [{"/c"}][1..] == [];
    assert UnionAll(lists) == {"/m"} + ({"/c"} + {});
  }

  lemma OwnEntry()
    ensures EvalSubscript(LookupProgram(), "PATHS", Some("copy"), Env("m", None, map[], [], map[]), 0, FRESH)
      == Fold({"/c"}, FRESH)
  {
    LookupParts();
    hide LookupProgram, Listing, Unmemoised, EvalName, EvalParts, EvalTargets, EvalList;
    FirstWithKeyMeans(PATHS, "copy");
    assert PATHS[0].0 == Some("move") && "move" != "copy" && PATHS[1].0 == Some("copy");
    assert FirstWithKey(PATHS, "copy") == 1;
  }
}
