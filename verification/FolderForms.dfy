/** Forms the soundness and precision theorems leave aside: format and strip calls, names with several
    definitions, and what the limits do. */
module FolderForms {
  import opened Options
  import opened PySyntax
  import opened PySemantics
  import opened Provenance
  import opened Templates
  import opened Folder
  import opened FolderSound
  import opened FolderDerives
  import opened FolderExact

  /** Some template of the fold denotes the string. */
  ghost predicate Denoted(vals: set<string>, s: string) {
    exists t :: t in vals && Instance(t, s)
  }

  /** FORMAT CALLS.  The fold of a format call on text denotes exactly the strings that formatting one of the
      texts can yield, whatever its fields become. */
  lemma FormatFoldsToItsStrings(p: Program, rank: Item -> nat, n: nat, modl: string, e: Expr, s: string)
    requires ListsSets(p) && TextExpr(p, rank, n, 39, ModuleSpot(modl), false, e)
    requires !Evaluate(p, Format(e), Env(modl, None, map[], [], map[]), 0, State(map[], false)).st.capped
    ensures Denoted(Evaluate(p, Format(e), Env(modl, None, map[], [], map[]), 0, State(map[], false)).vals, s)
      <==> exists t :: Derives(p, ModuleFrame(modl), e, VStr(t)) && Formats(t, s)
  {
    hide Evaluate, Unmemoised, TextExpr, Exact, Derives, Formats, Instance;
    var env, st := Env(modl, None, map[], [], map[]), State(map[], false);
    MethodFolds(p, e, env, 0, st);
    var vals := Evaluate(p, e, env, 1, st).vals;
    assert Mirrors(ModuleSpot(modl), env, ModuleFrame(modl));
    FoldExact(p, rank, n, 39, ModuleSpot(modl), env, ModuleFrame(modl), false, e, 1, st);
    TakesExactly(p, ModuleFrame(modl), e, vals);
    forall t ensures Formats(t, s) <==> Instance(SubFields(t), s) { FormatsAreInstances(t, s); }
    var all := set t | t in vals :: SubFields(t);
    if Denoted(all, s) { var t :| t in vals && Instance(SubFields(t), s); }
    if t :| Derives(p, ModuleFrame(modl), e, VStr(t)) && Formats(t, s) { assert SubFields(t) in all; }
  }

  /** STRIP CALLS.  The fold of a strip call on text is what its receiver can be, unstripped: it holds a
      stripped text if and only if the receiver can be that very text. */
  lemma StripFoldsToItsReceiver(p: Program, rank: Item -> nat, n: nat, modl: string, e: Expr, s: string)
    requires ListsSets(p) && TextExpr(p, rank, n, 39, ModuleSpot(modl), false, e)
    requires !Evaluate(p, Strip(e), Env(modl, None, map[], [], map[]), 0, State(map[], false)).st.capped
    ensures s in Evaluate(p, Strip(e), Env(modl, None, map[], [], map[]), 0, State(map[], false)).vals
      <==> Derives(p, ModuleFrame(modl), e, VStr(s))
  {
    hide Evaluate, Unmemoised, TextExpr, Exact, Derives;
    var env, st := Env(modl, None, map[], [], map[]), State(map[], false);
    MethodFolds(p, e, env, 0, st);
    assert Mirrors(ModuleSpot(modl), env, ModuleFrame(modl));
    FoldExact(p, rank, n, 39, ModuleSpot(modl), env, ModuleFrame(modl), false, e, 1, st);
    TakesExactly(p, ModuleFrame(modl), e, Evaluate(p, e, env, 1, st).vals);
  }

  lemma TakesExactly(p: Program, fr: Frame, e: Expr, vals: set<string>)
    requires Exact(p, fr, e, vals)
    ensures forall t :: Derives(p, fr, e, VStr(t)) <==> t in vals
  {
    forall t ensures Derives(p, fr, e, VStr(t)) <==> t in vals {
      var v := VStr(t);
      assert Derives(p, fr, e, v) <==> v.VStr? && v.s in vals;
    }
  }

  lemma MethodFolds(p: Program, e: Expr, env: Env, depth: nat, st: State)
    requires depth <= MAX_DEPTH
    ensures var r := Evaluate(p, e, env, depth + 1, st);
      && Evaluate(p, Format(e), env, depth, st) == Fold(set t | t in r.vals :: SubFields(t), r.st)
      && Evaluate(p, Strip(e), env, depth, st) == r
  {
    hide Unmemoised, SubFields;
  }

  /** A stripped path is not among the templates its strip call folds to. */
  lemma StripUnsound(p: Program, env: Env, st: State)
    ensures Evaluate(p, Strip(Str("/a/")), env, 0, st).vals == {"/a/"} && !Denoted({"/a/"}, "/a")
  {
    MethodFolds(p, Str("/a/"), env, 0, st);
    HoleFreeInstance("/a/", "/a");
  }

  // -- several definitions -----------------------------------------------------------------------

  /** What one definition's returns fold to, from some memo. */
  ghost predicate FoldsFrom(p: Program, fn: Fn, args: seq<Expr>, keywords: seq<(string, Expr)>, env: Env, depth: nat,
                            vals: set<string>, st: State)
    requires depth <= MAX_DEPTH
  {
    vals == UnionAll(Expanded(p, fn, args, keywords, env, depth, st).lists)
  }

  /** A name with several definitions folds to the union of what each of them folds to, but those being
      expanded already. */
  lemma {:induction false} EveryTargetFolded(p: Program, targets: seq<Fn>, args: seq<Expr>, keywords: seq<(string, Expr)>,
                                             env: Env, depth: nat, st: State, s: string)
    requires depth <= MAX_DEPTH
    ensures forall i | 0 <= i < |targets| && targets[i].name !in env.stack :: exists vals, before ::
      FoldsFrom(p, targets[i], args, keywords, env, depth, vals, before)
      && vals <= EvalTargets(p, targets, args, keywords, env, depth, st).vals
    ensures s in EvalTargets(p, targets, args, keywords, env, depth, st).vals ==>
      exists i, vals, before :: 0 <= i < |targets| && targets[i].name !in env.stack && s in vals
        && FoldsFrom(p, targets[i], args, keywords, env, depth, vals, before)
    decreases |targets|
  {
    hide Unmemoised, Expanded, UnionAll;
    if targets == [] {
    } else if targets[0].name in env.stack {
      EveryTargetFolded(p, targets[1..], args, keywords, env, depth, st, s);
      hide EvalTargets;
    } else {
      NextTarget(p, targets, args, keywords, env, depth, st);
      var rs := Expanded(p, targets[0], args, keywords, env, depth, st);
      assert FoldsFrom(p, targets[0], args, keywords, env, depth, UnionAll(rs.lists), st);
      EveryTargetFolded(p, targets[1..], args, keywords, env, depth, rs.st, s);
      hide EvalTargets, FoldsFrom;
    }
  }

  lemma NextTarget(p: Program, targets: seq<Fn>, args: seq<Expr>, keywords: seq<(string, Expr)>, env: Env, depth: nat,
                   st: State)
    requires depth <= MAX_DEPTH && targets != [] && targets[0].name !in env.stack
    ensures var rs := Expanded(p, targets[0], args, keywords, env, depth, st);
      var rest := EvalTargets(p, targets[1..], args, keywords, env, depth, rs.st);
      EvalTargets(p, targets, args, keywords, env, depth, st) == Fold(UnionAll(rs.lists) + rest.vals, rest.st)
  {
    hide Unmemoised, BindCall, UnionAll, EvalList;
  }

  // -- the limits --------------------------------------------------------------------------------

  /** A product is cut exactly when it has more than 64 concatenations, to its first 64. */
  lemma ProductCut(p: Program, lists: seq<set<string>>)
    ensures var combos := Combos(Listed(p, lists));
      var r := Product(p, lists, State(map[], false));
      && (r.st.capped <==> |combos| > 64)
      && (|combos| > 64 ==> r.vals == set i | 0 <= i < 64 :: combos[i])
  {
    hide Combos, Listed;
    var combos := Combos(Listed(p, lists));
    if |combos| > 64 {
      assert combos[..64][0] == combos[0];
      var cut := set x | x in combos[..64];
      assert combos[0] in cut;
      forall x ensures x in cut <==> exists i :: 0 <= i < 64 && combos[i] == x {
        if i :| 0 <= i < 64 && combos[i] == x { assert combos[..64][i] == x; }
      }
    }
  }

  /** What is nested deeper than 40 levels is not read, and no helper is expanded below the thirty-second. */
  lemma DepthsCut(p: Program, e: Expr, env: Env, depth: nat, st: State)
    requires depth <= MAX_DEPTH + 1
    ensures depth > 40 ==> Evaluate(p, e, env, depth, st) == Fold({HOLE}, st)
    ensures depth > 32 && e.Call? ==> Evaluate(p, e, env, depth, st) == Fold({HOLE}, st)
  {
    hide Unmemoised;
  }
}
