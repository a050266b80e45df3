/** The folder's guarantee: soundness over executions. */
module FolderTheorems {
  import opened Options
  import opened PySyntax
  import opened PySemantics
  import opened Provenance
  import opened Templates
  import opened Folder
  import opened FolderSound

  /** The environment a tool function is folded in: some parameters bound to templates. */
  function ToolEnv(fn: Fn, bindings: map<string, set<string>>, stack: seq<string>): Env {
    Env(fn.modl, Some(fn), bindings, stack, map[])
  }

  /** The arguments are instances of what the parameters are bound to; a parameter left unbound
      is not mistaken for a module constant. */
  ghost predicate ArgumentsFit(p: Program, fn: Fn, bindings: map<string, set<string>>, args: map<string, Val>) {
    && (forall x | x in bindings :: IsParam(fn, x))
    && (forall x | x in args :: IsParam(fn, x)
          && if x in bindings then Covers(bindings[x], args[x]) else !NamesConstant(p, fn.modl, x))
  }

  /** SOUNDNESS.  Run fn on any arguments that fit, stop at any statement, and evaluate e there:
      a string obtained is an instance of a template e folds to, from any sound memo.  Only what e
      rests on must be foldable; the rest of fn, and of the package, may be anything. */
  lemma FoldedTemplatesCoverExecutions(p: Program, sc: Scope, fn: Fn, bindings: map<string, set<string>>,
                                       stack: seq<string>, args: map<string, Val>, run: Tr, e: Expr, at: Tr,
                                       st: State)
    requires GoodScope(p, sc) && Foldable(p, sc, Place(fn.modl, Some(fn)), e)
    requires ArgumentsFit(p, fn, bindings, args) && MemoSound(p, st)
    requires !Evaluate(p, e, ToolEnv(fn, bindings, stack), 0, st).st.capped
    requires !Exec(p, Frame(fn.modl, Some(fn), args), fn.body, run).Returned?
    requires var store := Exec(p, Frame(fn.modl, Some(fn), args), fn.body, run).vars;
      var v := Value(p, Run, Frame(fn.modl, Some(fn), store), e, at);
      v.Some? && v.value.VStr?
    ensures var store := Exec(p, Frame(fn.modl, Some(fn), args), fn.body, run).vars;
      var s := Value(p, Run, Frame(fn.modl, Some(fn), store), e, at).value.s;
      exists t :: t in Evaluate(p, e, ToolEnv(fn, bindings, stack), 0, st).vals && Instance(t, s)
    ensures MemoSound(p, Evaluate(p, e, ToolEnv(fn, bindings, stack), 0, st).st)
  {
    hide Evaluate, Exec, Value, Foldable, Solid, GoodScope;
    var fr := Frame(fn.modl, Some(fn), args);
    var env := ToolEnv(fn, bindings, stack);
    assert Explains(p, fr, fr) by { assert Explained(p, fr, args); }
    ExecExplained(p, fr, fr, fn.body, run);
    var store := Exec(p, fr, fn.body, run).vars;
    var here := Frame(fn.modl, Some(fn), store);
    var u := ValueCollected(p, here, fr, e, at);
    assert Admits(p, env, fr);
    assert GoodEnv(p, sc, env);
    Sound(p, sc, e, env, 0, st);
    assert Fits(Solid(p, sc, PlaceOf(env), e), Evaluate(p, e, env, 0, st).vals, Value(p, Collect, fr, e, u).value);
  }

  /** The empty memo the analyzer starts from is sound. */
  lemma EmptyMemoSound(p: Program)
    ensures MemoSound(p, State(map[], false))
  {}
}
