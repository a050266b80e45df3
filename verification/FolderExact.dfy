/** Precision of the constant folder: text built from literals, module constants, dictionary entries,
    local variables, parameters and helper calls folds to exactly the strings it can take. */
module FolderExact {
  import opened Options
  import opened PySyntax
  import opened PySemantics
  import opened Provenance
  import opened Templates
  import opened Folder
  import opened FolderSound
  import opened FolderDerives

  // -- text expressions --------------------------------------------------------------------------

  /** Where an expression stands.  modl: its module; fn: the function whose assignments the folder reads;
      home: the function it runs in (none for a default); busy: the names being resolved; bound: the
      parameters the folder has bound, of which texts hold one string and funs a function. */
  datatype Spot = Spot(modl: string, fn: Option<Fn>, home: Option<Fn>, busy: seq<string>, bound: set<string>,
                       texts: set<string>, funs: map<string, Key>)

  function ModuleSpot(modl: string): Spot {
    Spot(modl, None, None, [], {}, {}, map[])
  }

  function ConstantSpot(key: Key): Spot {
    ModuleSpot(key.0).(busy := [key.1])
  }

  predicate LocalTo(at: Spot, x: string) {
    at.home.Some? && IsLocal(at.home.value, x)
  }

  /** Nothing hides the module's x, from the folder or at run time. */
  predicate Open(at: Spot, x: string) {
    !LocalTo(at, x) && (at.fn.Some? ==> AssignmentsTo(at.fn.value.body, x) == []) && x !in at.bound
  }

  /** The function an expression passes or calls: the one it names, or its parameter's. */
  function RefOf(p: Program, modl: string, funs: map<string, Key>, e: Expr): Option<Key> {
    if FunctionFor(p, modl, e).Some? then FunctionFor(p, modl, e)
    else if e.Name? && e.id in funs then Some(funs[e.id])
    else None
  }

  /** The reference means at run time what the folder takes it for. */
  predicate RefOk(p: Program, at: Spot, e: Expr)
    requires RefOf(p, at.modl, at.funs, e).Some?
  {
    if FunctionFor(p, at.modl, e).None? then
      at.home.Some? && IsParam(at.home.value, e.id) && Plain(at.home.value, e.id) && e.id in at.bound
    else
      FunctionFor(p, at.modl, e).value !in p.constants && match e case Name(id) => Open(at, id) case Attr(alias, _) => !LocalTo(at, alias) case _ => false
  }

  predicate LiteralKeys(entries: seq<(Option<string>, Expr)>) {
    && (forall i :: 0 <= i < |entries| ==> entries[i].0.Some?)
    && forall i, j :: 0 <= i < j < |entries| ==> entries[i].0 != entries[j].0
  }

  /** e is text: it rests on items that rank below n, and is nested no deeper than room; one: it can take
      one string only. */
  ghost predicate TextExpr(p: Program, rank: Item -> nat, n: nat, room: nat, at: Spot, one: bool, e: Expr)
    decreases n, room + 1, 0
  {
    match e
    case Str(_) => true
    case FString(parts) =>
      room > 0 && forall i :: 0 <= i < |parts| && parts[i].Field? ==>
        !parts[i].spec && TextExpr(p, rank, n, room - 1, at, one, parts[i].expr)
    case Plus(l, r) => room > 0 && TextExpr(p, rank, n, room - 1, at, one, l) && TextExpr(p, rank, n, room - 1, at, one, r)
    case Cond(a, b) =>
      room > 0 && !one && TextExpr(p, rank, n, room - 1, at, false, a) && TextExpr(p, rank, n, room - 1, at, false, b)
    case Bool(values) =>
      && room > 0 && values != [] && (one ==> |values| == 1)
      && forall i :: 0 <= i < |values| ==> TextExpr(p, rank, n, room - 1, at, one, values[i])
    case Name(id) =>
      if LocalTo(at, id) && IsParam(at.home.value, id) then Plain(at.home.value, id) && id in at.texts
      else if LocalTo(at, id) then
        var x, bound := Variable(at.home.value, id), AssignmentsTo(at.home.value.body, id);
        && room > 0 && rank(x) < n && at.fn == at.home && id !in at.bound && id !in at.busy
        && Plain(at.home.value, id) && (one ==> |bound| == 1)
        && forall i :: 0 <= i < |bound| ==> TextExpr(p, rank, rank(x), room - 1, Resolving(at, id), one, bound[i])
      else Open(at, id) && id !in at.busy && TextRef(p, rank, n, Resolve(p, at.modl, id), one)
    case Attr(alias, attr) => !LocalTo(at, alias) && TextRef(p, rank, n, ResolveAttr(p, at.modl, alias, attr), one)
    case Index(base, key) =>
      var ref := Resolve(p, at.modl, base);
      && room > 0 && !LocalTo(at, base) && IsDict(p, ref) && rank(Entries(ref.value)) < n
      && var entries := p.constants[ref.value].entries;
         && LiteralKeys(entries) && (one && key.None? ==> |entries| == 1)
         && (exists i :: 0 <= i < |entries| && (key.None? || entries[i].0 == key))
         && forall i :: 0 <= i < |entries| && (key.None? || entries[i].0 == key) ==>
              TextExpr(p, rank, rank(Entries(ref.value)), room - 1, ModuleSpot(ref.value.0), one, entries[i].1)
    case Call(callee, args, keywords) =>
      var ref := RefOf(p, at.modl, at.funs, callee);
      && room >= 8 && ref.Some? && RefOk(p, at, callee) && rank(Definition(ref.value)) < n
      && ref.value in p.functions && |p.functions[ref.value]| == 1
      && TextCall(p, rank, n, rank(Definition(ref.value)), room - 1, at, one, p.functions[ref.value][0], args, keywords)
    case _ => false
  }

  /** Inside the assignments of the local id. */
  function Resolving(at: Spot, id: string): Spot {
    at.(busy := at.busy + [id], funs := map[])
  }

  ghost predicate TextRef(p: Program, rank: Item -> nat, n: nat, ref: Option<Key>, one: bool)
    decreases n, 0, 0
  {
    ref.Some? && ref.value in p.constants && rank(Definition(ref.value)) < n && TextConstant(p, rank, ref.value, one)
  }

  ghost predicate TextConstant(p: Program, rank: Item -> nat, key: Key, one: bool)
    decreases rank(Definition(key)), 42, 0
  {
    key in p.constants && TextExpr(p, rank, rank(Definition(key)), 40, ConstantSpot(key), one, p.constants[key])
  }

  /** A call of the helper fn, whose rank is m: accepted, each argument one string or a function, each default
      it falls back on one string, and its returns text. */
  ghost predicate TextCall(p: Program, rank: Item -> nat, n: nat, m: nat, room: nat, at: Spot, one: bool, fn: Fn,
                           args: seq<Expr>, keywords: seq<(string, Expr)>)
    requires m < n
    decreases n, room + 1, 2
  {
    var pairs := CallPairs(fn, args, keywords);
    var left := DefaultsLeft(fn.defaults, PairNames(pairs));
    var rets := ReturnsOf(fn.body);
    && fn.name !in at.busy && AcceptedCall(fn, args, keywords) && !MayReturnNone(fn) && (one ==> |rets| == 1)
    && Distinct(fn.defaults) && Completes(fn, pairs, left)
    && (forall i :: 0 <= i < |pairs| ==> TextArgument(p, rank, n, room, at, pairs[i].1))
    && (forall i :: 0 <= i < |left| ==>
          FunctionFor(p, fn.modl, left[i].1).None? && TextExpr(p, rank, m, room, DefaultSpot(at, fn), true, left[i].1))
    && forall i :: 0 <= i < |rets| ==> TextExpr(p, rank, m, room, CalleeSpot(p, at, fn, pairs, left), one, rets[i])
  }

  ghost predicate TextArgument(p: Program, rank: Item -> nat, n: nat, room: nat, at: Spot, e: Expr)
    decreases n, room + 1, 1
  {
    if RefOf(p, at.modl, at.funs, e).Some? then RefOk(p, at, e) else TextExpr(p, rank, n, room, at, true, e)
  }

  /** The call and the defaults bind every parameter and nothing else. */
  predicate Completes(fn: Fn, pairs: seq<(string, Expr)>, left: seq<(string, Expr)>) {
    && (forall x | x in fn.params + fn.kwonly :: x in PairNames(pairs) + PairNames(left))
    && forall x | x in PairNames(pairs) + PairNames(left) :: IsParam(fn, x)
  }

  function DefaultSpot(at: Spot, fn: Fn): Spot {
    Spot(fn.modl, Some(fn), None, at.busy + [fn.name], {}, {}, map[])
  }

  function CalleeSpot(p: Program, at: Spot, fn: Fn, pairs: seq<(string, Expr)>, left: seq<(string, Expr)>): Spot {
    Spot(fn.modl, Some(fn), Some(fn), at.busy + [fn.name], PairNames(pairs) + PairNames(left),
         (set i | 0 <= i < |pairs| && RefOf(p, at.modl, at.funs, pairs[i].1).None? :: pairs[i].0) + PairNames(left),
         Callables(p, Env(at.modl, at.fn, map[], at.busy, at.funs), pairs))
  }

  // -- the invariant -----------------------------------------------------------------------------

  /** The folder's environment and the frame agree with the spot. */
  ghost predicate Mirrors(at: Spot, env: Env, fr: Frame) {
    && env == Env(at.modl, at.fn, env.bindings, at.busy, at.funs) && env.bindings.Keys == at.bound
    && fr.modl == at.modl && fr.fn == at.home
    && (forall x | x in at.texts ::
          x in at.bound && x in fr.vars && fr.vars[x].VStr? && env.bindings[x] == {fr.vars[x].s})
    && forall x | x in at.funs :: x in fr.vars && fr.vars[x] == VFun(at.funs[x])
  }

  ghost predicate ExactConstant(p: Program, rank: Item -> nat, key: Key, vals: set<string>) {
    && key in p.constants && Exact(p, ModuleFrame(key.0), p.constants[key], vals)
    && (TextConstant(p, rank, key, true) ==> One(vals))
  }

  ghost predicate MemoExact(p: Program, rank: Item -> nat, n: nat, st: State) {
    forall k | k in st.memo && rank(Definition(k)) < n
      && (TextConstant(p, rank, k, false) || TextConstant(p, rank, k, true)) :: ExactConstant(p, rank, k, st.memo[k])
  }

  /** Entries stay; what was added is exact. */
  ghost predicate Grows(p: Program, rank: Item -> nat, before: State, after: State) {
    && (forall k | k in before.memo :: k in after.memo && after.memo[k] == before.memo[k])
    && (forall k | k in after.memo && k !in before.memo :: ExactConstant(p, rank, k, after.memo[k]))
  }

  lemma MemoGrows(p: Program, rank: Item -> nat, n: nat, before: State, after: State)
    requires MemoExact(p, rank, n, before) && Grows(p, rank, before, after)
    ensures MemoExact(p, rank, n, after)
  {
    hide ExactConstant, TextConstant;
  }

  lemma GrowsOn(p: Program, rank: Item -> nat, a: State, b: State, c: State)
    requires Grows(p, rank, a, b) && Grows(p, rank, b, c)
    ensures Grows(p, rank, a, c)
  {
    hide ExactConstant;
  }

  // -- expressions -------------------------------------------------------------------------------

  /** EXACTNESS.  Text folds to exactly the strings it can take where it stands, to one if it can take one
      only, whatever was folded before. */
  lemma {:induction false} FoldExact(p: Program, rank: Item -> nat, n: nat, room: nat, at: Spot, env: Env, fr: Frame,
                                     one: bool, e: Expr, depth: nat, st: State)
    requires ListsSets(p) && TextExpr(p, rank, n, room, at, one, e) && depth + room <= MAX_DEPTH
    requires Mirrors(at, env, fr) && MemoExact(p, rank, n, st)
    requires !Evaluate(p, e, env, depth, st).st.capped
    ensures var r := Evaluate(p, e, env, depth, st);
      Exact(p, fr, e, r.vals) && (one ==> One(r.vals)) && Grows(p, rank, st, r.st)
    decreases n, room, 0, 3
  {
    hide Unmemoised, Product, Derives, Exact, EvalConstant, EvalName, EvalSubscript, EvalTargets, Mirrors, MemoExact, One,
      LocalTo, Open, IsDict, TextRef, TextCall, RefOf, RefOk, LiteralKeys, Plain;
    match e
    case Str(s) =>
      StrExact(p, fr, s);
      assert One({s}) by { OneIfAlike({s}, s); }
    case FString(parts) => FStringFold(p, rank, n, room, at, env, fr, one, parts, depth, st);
    case Plus(l, r) => PlusFold(p, rank, n, room, at, env, fr, one, l, r, depth, st);
    case Cond(x, y) => CondFold(p, rank, n, room, at, env, fr, x, y, depth, st);
    case Bool(values) => BoolFold(p, rank, n, room, at, env, fr, one, values, depth, st);
    case Name(id) => NameFold(p, rank, n, room, at, env, fr, one, id, depth, st);
    case Attr(alias, attr) => AttrFold(p, rank, n, room, at, env, fr, one, alias, attr, depth, st);
    case Index(base, key) => IndexFold(p, rank, n, room, at, env, fr, one, base, key, depth, st);
    case Call(callee, args, keywords) => CallFold(p, rank, n, room, at, env, fr, one, callee, args, keywords, depth, st);
  }

  lemma {:induction false} ListExact(p: Program, rank: Item -> nat, n: nat, room: nat, at: Spot, env: Env, fr: Frame,
                                     one: bool, es: seq<Expr>, depth: nat, st: State)
    requires ListsSets(p) && (forall i :: 0 <= i < |es| ==> TextExpr(p, rank, n, room, at, one, es[i]))
    requires depth + room <= MAX_DEPTH && Mirrors(at, env, fr) && MemoExact(p, rank, n, st)
    requires !EvalList(p, es, env, depth, st).st.capped
    ensures var r := EvalList(p, es, env, depth, st);
      && AllExact(p, fr, es, r.lists) && Grows(p, rank, st, r.st)
      && (one ==> forall i :: 0 <= i < |r.lists| ==> One(r.lists[i]))
    decreases n, room, |es| + 1, 0
  {
    hide Unmemoised, Exact, Evaluate, TextExpr, Mirrors, MemoExact, Grows, One;
    if es == [] {
      assert Grows(p, rank, st, st) by { GrowsNot(p, rank, st); }
    } else {
      var r := Evaluate(p, es[0], env, depth, st);
      FoldExact(p, rank, n, room, at, env, fr, one, es[0], depth, st);
      MemoGrows(p, rank, n, st, r.st);
      ListExact(p, rank, n, room, at, env, fr, one, es[1..], depth, r.st);
      GrowsOn(p, rank, st, r.st, EvalList(p, es[1..], env, depth, r.st).st);
    }
  }

  lemma GrowsNot(p: Program, rank: Item -> nat, st: State)
    ensures Grows(p, rank, st, st)
  {}

  lemma {:induction false} PartsExact(p: Program, rank: Item -> nat, n: nat, room: nat, at: Spot, env: Env, fr: Frame,
                                      one: bool, parts: seq<Part>, depth: nat, st: State)
    requires ListsSets(p) && depth + room <= MAX_DEPTH && Mirrors(at, env, fr) && MemoExact(p, rank, n, st)
    requires forall i :: 0 <= i < |parts| && parts[i].Field? ==>
      !parts[i].spec && TextExpr(p, rank, n, room, at, one, parts[i].expr)
    requires !EvalParts(p, parts, env, depth, st).st.capped
    ensures var r := EvalParts(p, parts, env, depth, st);
      && (forall i :: 0 <= i < |parts| ==> PartExact(p, fr, parts[i], r.lists[i])) && Grows(p, rank, st, r.st)
      && (one ==> forall i :: 0 <= i < |r.lists| ==> One(r.lists[i]))
    decreases n, room, |parts| + 1, 0
  {
    hide Unmemoised, Exact, Evaluate, TextExpr, Mirrors, MemoExact, Grows, One;
    if parts == [] {
      GrowsNot(p, rank, st);
    } else if parts[0].Field? {
      var r := Evaluate(p, parts[0].expr, env, depth, st);
      FoldExact(p, rank, n, room, at, env, fr, one, parts[0].expr, depth, st);
      MemoGrows(p, rank, n, st, r.st);
      PartsExact(p, rank, n, room, at, env, fr, one, parts[1..], depth, r.st);
      GrowsOn(p, rank, st, r.st, EvalParts(p, parts[1..], env, depth, r.st).st);
    } else {
      PartsExact(p, rank, n, room, at, env, fr, one, parts[1..], depth, st);
      assert One({parts[0].text}) by { OneIfAlike({parts[0].text}, parts[0].text); }
    }
  }

  lemma {:induction false} FStringFold(p: Program, rank: Item -> nat, n: nat, room: nat, at: Spot, env: Env, fr: Frame,
                                       one: bool, parts: seq<Part>, depth: nat, st: State)
    requires ListsSets(p) && TextExpr(p, rank, n, room, at, one, FString(parts)) && depth + room <= MAX_DEPTH
    requires Mirrors(at, env, fr) && MemoExact(p, rank, n, st)
    requires !Evaluate(p, FString(parts), env, depth, st).st.capped
    ensures var r := Evaluate(p, FString(parts), env, depth, st);
      Exact(p, fr, FString(parts), r.vals) && (one ==> One(r.vals)) && Grows(p, rank, st, r.st)
    decreases n, room, 0, 2
  {
    hide Unmemoised, Exact, PartExact, Mirrors, MemoExact, One;
    var r := EvalParts(p, parts, env, depth + 1, st);
    assert Evaluate(p, FString(parts), env, depth, st) == Product(p, r.lists, r.st);
    PartsExact(p, rank, n, room - 1, at, env, fr, one, parts, depth + 1, st);
    FStringExact(p, fr, parts, r.lists, r.st);
    SameMemo(p, rank, st, r.st, Product(p, r.lists, r.st).st);
  }

  /** The limit flag is no part of the memo. */
  lemma SameMemo(p: Program, rank: Item -> nat, before: State, after: State, same: State)
    requires Grows(p, rank, before, after) && same.memo == after.memo
    ensures Grows(p, rank, before, same)
  {}

  /** Two expressions folded one after the other. */
  lemma {:induction false} PairFold(p: Program, rank: Item -> nat, n: nat, room: nat, at: Spot, env: Env, fr: Frame,
                                    one: bool, l: Expr, r: Expr, depth: nat, st: State)
    requires ListsSets(p) && TextExpr(p, rank, n, room, at, one, l) && TextExpr(p, rank, n, room, at, one, r)
    requires depth + room <= MAX_DEPTH && Mirrors(at, env, fr) && MemoExact(p, rank, n, st)
    requires !Evaluate(p, r, env, depth, Evaluate(p, l, env, depth, st).st).st.capped
    ensures var a := Evaluate(p, l, env, depth, st);
      var b := Evaluate(p, r, env, depth, a.st);
      && Exact(p, fr, l, a.vals) && Exact(p, fr, r, b.vals) && (one ==> One(a.vals) && One(b.vals))
      && Grows(p, rank, st, b.st)
    decreases n, room, 1, 0
  {
    hide Unmemoised, Evaluate, Exact, TextExpr, Mirrors, MemoExact, Grows, One;
    var a := Evaluate(p, l, env, depth, st);
    FoldExact(p, rank, n, room, at, env, fr, one, l, depth, st);
    MemoGrows(p, rank, n, st, a.st);
    FoldExact(p, rank, n, room, at, env, fr, one, r, depth, a.st);
    GrowsOn(p, rank, st, a.st, Evaluate(p, r, env, depth, a.st).st);
  }

  lemma EvaluatePair(p: Program, l: Expr, r: Expr, env: Env, depth: nat, st: State)
    requires depth <= MAX_DEPTH
    ensures var a := Evaluate(p, l, env, depth + 1, st);
      var b := Evaluate(p, r, env, depth + 1, a.st);
      && Evaluate(p, Plus(l, r), env, depth, st) == Product(p, [a.vals, b.vals], b.st)
      && Evaluate(p, Cond(l, r), env, depth, st) == Fold(a.vals + b.vals, b.st)
  {
    hide Product, Unmemoised;
  }

  lemma EvaluateForms(p: Program, id: string, values: seq<Expr>, base: string, key: Option<string>, env: Env, depth: nat,
                      st: State)
    requires depth <= MAX_DEPTH
    ensures var r := EvalList(p, values, env, depth + 1, st);
      Evaluate(p, Bool(values), env, depth, st) == Fold(UnionAll(r.lists), r.st)
    ensures Evaluate(p, Name(id), env, depth, st) == EvalName(p, id, env, depth, st)
    ensures Evaluate(p, Index(base, key), env, depth, st) == EvalSubscript(p, base, key, env, depth, st)
  {
    hide Unmemoised, EvalList, EvalName, EvalSubscript, UnionAll;
  }

  lemma {:induction false} PlusFold(p: Program, rank: Item -> nat, n: nat, room: nat, at: Spot, env: Env, fr: Frame,
                                    one: bool, l: Expr, r: Expr, depth: nat, st: State)
    requires ListsSets(p) && TextExpr(p, rank, n, room, at, one, Plus(l, r)) && depth + room <= MAX_DEPTH
    requires Mirrors(at, env, fr) && MemoExact(p, rank, n, st)
    requires !Evaluate(p, Plus(l, r), env, depth, st).st.capped
    ensures var v := Evaluate(p, Plus(l, r), env, depth, st);
      Exact(p, fr, Plus(l, r), v.vals) && (one ==> One(v.vals)) && Grows(p, rank, st, v.st)
    decreases n, room, 0, 2
  {
    hide Unmemoised, Evaluate, Product, Exact, Mirrors, MemoExact, One;
    EvaluatePair(p, l, r, env, depth, st);
    var a := Evaluate(p, l, env, depth + 1, st);
    var b := Evaluate(p, r, env, depth + 1, a.st);
    PairFold(p, rank, n, room - 1, at, env, fr, one, l, r, depth + 1, st);
    PlusExact(p, fr, l, r, a.vals, b.vals, b.st);
    SameMemo(p, rank, st, b.st, Product(p, [a.vals, b.vals], b.st).st);
  }

  lemma {:induction false} CondFold(p: Program, rank: Item -> nat, n: nat, room: nat, at: Spot, env: Env, fr: Frame,
                                    x: Expr, y: Expr, depth: nat, st: State)
    requires ListsSets(p) && TextExpr(p, rank, n, room, at, false, Cond(x, y)) && depth + room <= MAX_DEPTH
    requires Mirrors(at, env, fr) && MemoExact(p, rank, n, st)
    requires !Evaluate(p, Cond(x, y), env, depth, st).st.capped
    ensures var v := Evaluate(p, Cond(x, y), env, depth, st); Exact(p, fr, Cond(x, y), v.vals) && Grows(p, rank, st, v.st)
    decreases n, room, 0, 2
  {
    hide Unmemoised, Evaluate, Product, Exact, Mirrors, MemoExact, One;
    EvaluatePair(p, x, y, env, depth, st);
    var a := Evaluate(p, x, env, depth + 1, st);
    PairFold(p, rank, n, room - 1, at, env, fr, false, x, y, depth + 1, st);
    CondExact(p, fr, x, y, a.vals, Evaluate(p, y, env, depth + 1, a.st).vals);
  }

  lemma {:induction false} BoolFold(p: Program, rank: Item -> nat, n: nat, room: nat, at: Spot, env: Env, fr: Frame,
                                    one: bool, values: seq<Expr>, depth: nat, st: State)
    requires ListsSets(p) && TextExpr(p, rank, n, room, at, one, Bool(values)) && depth + room <= MAX_DEPTH
    requires Mirrors(at, env, fr) && MemoExact(p, rank, n, st)
    requires !Evaluate(p, Bool(values), env, depth, st).st.capped
    ensures var v := Evaluate(p, Bool(values), env, depth, st);
      Exact(p, fr, Bool(values), v.vals) && (one ==> One(v.vals)) && Grows(p, rank, st, v.st)
    decreases n, room, 0, 2
  {
    hide Unmemoised, Evaluate, EvalList, Exact, Derives, Mirrors, MemoExact, One, UnionAll;
    var r := EvalList(p, values, env, depth + 1, st);
    EvaluateForms(p, "", values, "", None, env, depth, st);
    ListExact(p, rank, n, room - 1, at, env, fr, one, values, depth + 1, st);
    forall v ensures Derives(p, fr, Bool(values), v) <==> DerivesAny(p, fr, values, v) { BoolDerives(p, fr, values, v); }
    UnionExact(p, fr, values, r.lists, fr, Bool(values));
  }

  // -- names and attributes ----------------------------------------------------------------------

  lemma {:induction false} NameFold(p: Program, rank: Item -> nat, n: nat, room: nat, at: Spot, env: Env, fr: Frame,
                                    one: bool, id: string, depth: nat, st: State)
    requires ListsSets(p) && TextExpr(p, rank, n, room, at, one, Name(id)) && depth + room <= MAX_DEPTH
    requires Mirrors(at, env, fr) && MemoExact(p, rank, n, st)
    requires !Evaluate(p, Name(id), env, depth, st).st.capped
    ensures var v := Evaluate(p, Name(id), env, depth, st);
      Exact(p, fr, Name(id), v.vals) && (one ==> One(v.vals)) && Grows(p, rank, st, v.st)
    decreases n, room, 0, 2
  {
    hide Unmemoised, Evaluate, EvalList, EvalConstant, Derives, MemoExact, One, UnionAll, AssignmentsTo, Plain;
    EvaluateForms(p, id, [], "", None, env, depth, st);
    if LocalTo(at, id) && IsParam(at.home.value, id) {
      GrowsNot(p, rank, st);
      var s := fr.vars[id].s;
      forall v ensures Derives(p, fr, Name(id), v) <==> v == fr.vars[id] { ParamDerives(p, fr, id, v); }
      OneIfAlike({s}, s);
    } else if LocalTo(at, id) {
      LocalFold(p, rank, n, room, at, env, fr, one, id, depth, st);
    } else {
      var ref := Resolve(p, at.modl, id);
      GlobalName(p, id, env, depth, st);
      ReferenceFold(p, rank, n, fr, one, Name(id), ref.value, st);
    }
  }

  /** A name nothing hides folds as its module's constant. */
  lemma GlobalName(p: Program, id: string, env: Env, depth: nat, st: State)
    requires depth <= MAX_DEPTH && id !in env.bindings && id !in env.stack
    requires env.fn.Some? ==> AssignmentsTo(env.fn.value.body, id) == []
    ensures var ref := Resolve(p, env.modl, id);
      EvalName(p, id, env, depth, st) == if ref.Some? && ref.value in p.constants then EvalConstant(p, ref.value, st) else Fold({HOLE}, st)
  {
    hide Unmemoised, EvalConstant;
    assert EvalList(p, [], Env(env.modl, env.fn, env.bindings, env.stack + [id], map[]), depth + 1, st) == FoldList([], st);
  }

  lemma {:induction false} LocalFold(p: Program, rank: Item -> nat, n: nat, room: nat, at: Spot, env: Env, fr: Frame,
                                     one: bool, id: string, depth: nat, st: State)
    requires ListsSets(p) && TextExpr(p, rank, n, room, at, one, Name(id)) && depth + room <= MAX_DEPTH
    requires LocalTo(at, id) && !IsParam(at.home.value, id)
    requires Mirrors(at, env, fr) && MemoExact(p, rank, n, st) && !EvalName(p, id, env, depth, st).st.capped
    ensures var v := EvalName(p, id, env, depth, st);
      Exact(p, fr, Name(id), v.vals) && (one ==> One(v.vals)) && Grows(p, rank, st, v.st)
    decreases n, room, 0, 1
  {
    hide Unmemoised, Evaluate, EvalList, EvalConstant, Derives, Exact, One, UnionAll, AssignmentsTo, Plain;
    var m := rank(Variable(at.home.value, id));
    var bound := AssignmentsTo(at.home.value.body, id);
    var inner := Env(env.modl, env.fn, env.bindings, env.stack + [id], map[]);
    var r := EvalList(p, bound, inner, depth + 1, st);
    assert Mirrors(Resolving(at, id), inner, fr);
    assert EvalName(p, id, env, depth, st) == if UnionAll(r.lists) != {} then Fold(UnionAll(r.lists), r.st) else EvalName(p, id, env, depth, st);
    hide EvalName, Mirrors;
    EvalNameCaps(p, id, env, depth, st);
    ListExact(p, rank, m, room - 1, Resolving(at, id), inner, fr, one, bound, depth + 1, st);
    forall v ensures Derives(p, fr, Name(id), v) <==> DerivesAny(p, fr, bound, v) { LocalDerives(p, fr, id, v); }
    UnionExact(p, fr, bound, r.lists, fr, Name(id));
    assert UnionAll(r.lists) != {} by { ExactNonEmpty(p, fr, Name(id), UnionAll(r.lists)); }
  }

  lemma ExactNonEmpty(p: Program, fr: Frame, e: Expr, vals: set<string>)
    requires Exact(p, fr, e, vals)
    ensures vals != {}
  {}

  /** Nothing uncuts a product. */
  lemma EvalNameCaps(p: Program, id: string, env: Env, depth: nat, st: State)
    requires depth <= MAX_DEPTH && id !in env.bindings && id !in env.stack && env.fn.Some?
    ensures var inner := Env(env.modl, env.fn, env.bindings, env.stack + [id], map[]);
      var r := EvalList(p, AssignmentsTo(env.fn.value.body, id), inner, depth + 1, st);
      r.st.capped ==> EvalName(p, id, env, depth, st).st.capped
  {
    hide Unmemoised, EvalConstant, Evaluate, EvalList, UnionAll, AssignmentsTo;
  }

  lemma {:induction false} AttrFold(p: Program, rank: Item -> nat, n: nat, room: nat, at: Spot, env: Env, fr: Frame,
                                    one: bool, alias: string, attr: string, depth: nat, st: State)
    requires ListsSets(p) && TextExpr(p, rank, n, room, at, one, Attr(alias, attr)) && depth + room <= MAX_DEPTH
    requires Mirrors(at, env, fr) && MemoExact(p, rank, n, st)
    requires !Evaluate(p, Attr(alias, attr), env, depth, st).st.capped
    ensures var v := Evaluate(p, Attr(alias, attr), env, depth, st);
      Exact(p, fr, Attr(alias, attr), v.vals) && (one ==> One(v.vals)) && Grows(p, rank, st, v.st)
    decreases n, room, 0, 2
  {
    hide Unmemoised, EvalConstant, Exact, MemoExact, One, IsLocal;
    var ref := ResolveAttr(p, at.modl, alias, attr);
    ReferenceFold(p, rank, n, fr, one, Attr(alias, attr), ref.value, st);
  }

  lemma {:induction false} ReferenceFold(p: Program, rank: Item -> nat, n: nat, fr: Frame, one: bool, e: Expr, key: Key,
                                         st: State)
    requires ListsSets(p) && Reference(p, fr, e) == Some(key) && key in p.constants && TextRef(p, rank, n, Some(key), one)
    requires MemoExact(p, rank, n, st) && !EvalConstant(p, key, st).st.capped
    ensures var v := EvalConstant(p, key, st); Exact(p, fr, e, v.vals) && (one ==> One(v.vals)) && Grows(p, rank, st, v.st)
    decreases n, 0, 0, 0
  {
    hide Unmemoised, EvalConstant, Derives, MemoExact, One, Reference;
    ConstantExact(p, rank, n, key, one, st);
    forall v ensures Derives(p, fr, e, v) <==> Derives(p, ModuleFrame(key.0), p.constants[key], v) {
      ConstantDerives(p, fr, e, key, v);
    }
  }

  /** A constant folds to exactly the strings it can hold, whatever was folded before. */
  lemma {:induction false} ConstantExact(p: Program, rank: Item -> nat, n: nat, key: Key, one: bool, st: State)
    requires ListsSets(p) && key in p.constants && TextConstant(p, rank, key, one) && rank(Definition(key)) < n
    requires MemoExact(p, rank, n, st) && !EvalConstant(p, key, st).st.capped
    ensures var r := EvalConstant(p, key, st);
      ExactConstant(p, rank, key, r.vals) && (one ==> One(r.vals)) && Grows(p, rank, st, r.st)
    decreases rank(Definition(key)), 41, 0, 0
  {
    hide Unmemoised, Exact, Evaluate, One, TextExpr;
    if key !in st.memo {
      var m := rank(Definition(key));
      var guarded := State(st.memo[key := {HOLE}], st.capped);
      assert MemoExact(p, rank, m, guarded) by { hide ExactConstant, TextConstant; }
      var env := Env(key.0, None, map[], [key.1], map[]);
      assert Mirrors(ConstantSpot(key), env, ModuleFrame(key.0));
      hide Mirrors, MemoExact;
      FoldExact(p, rank, m, 40, ConstantSpot(key), env, ModuleFrame(key.0), one || TextConstant(p, rank, key, true),
                p.constants[key], 0, guarded);
    }
  }

  // -- lookups -----------------------------------------------------------------------------------

  lemma {:induction false} IndexFold(p: Program, rank: Item -> nat, n: nat, room: nat, at: Spot, env: Env, fr: Frame,
                                     one: bool, base: string, key: Option<string>, depth: nat, st: State)
    requires ListsSets(p) && TextExpr(p, rank, n, room, at, one, Index(base, key)) && depth + room <= MAX_DEPTH
    requires Mirrors(at, env, fr) && MemoExact(p, rank, n, st)
    requires !Evaluate(p, Index(base, key), env, depth, st).st.capped
    ensures var v := Evaluate(p, Index(base, key), env, depth, st);
      Exact(p, fr, Index(base, key), v.vals) && (one ==> One(v.vals)) && Grows(p, rank, st, v.st)
    decreases n, room, 0, 2
  {
    hide Unmemoised, Evaluate, EvalList, Exact, Derives, MemoExact, One, UnionAll, IsLocal;
    EvaluateForms(p, "", [], base, key, env, depth, st);
    var ref := Resolve(p, at.modl, base).value;
    var entries, there, spot := p.constants[ref].entries, Env(ref.0, None, map[], [], map[]), ModuleSpot(ref.0);
    var m, home := rank(Entries(ref)), ModuleFrame(ref.0);
    assert Mirrors(spot, there, home) && MemoExact(p, rank, m, st) by { FewerExact(p, rank, n, m, st); }
    if key.Some? {
      FirstWithKeyMeans(entries, key.value);
      var hit := FirstWithKey(entries, key.value);
      assert hit < |entries|;
      FoldExact(p, rank, m, room - 1, spot, there, home, one, entries[hit].1, depth + 1, st);
      LookupOne(p, fr, base, key, hit, Evaluate(p, entries[hit].1, there, depth + 1, st).vals);
    } else {
      var es := EntryValues(entries);
      ListExact(p, rank, m, room - 1, spot, there, home, one, es, depth + 1, st);
      var r := EvalList(p, es, there, depth + 1, st);
      LookupAny(p, fr, base, r.lists);
      ExactNonEmpty(p, fr, Index(base, None), UnionAll(r.lists));
    }
  }

  lemma FewerExact(p: Program, rank: Item -> nat, n: nat, m: nat, st: State)
    requires MemoExact(p, rank, n, st) && m <= n
    ensures MemoExact(p, rank, m, st)
  {
    hide ExactConstant, TextConstant;
  }

  /** A literal key takes what its own entry takes. */
  lemma LookupOne(p: Program, fr: Frame, base: string, key: Option<string>, hit: nat, vals: set<string>)
    requires !FrameLocal(fr, base) && IsDict(p, Resolve(p, fr.modl, base)) && key.Some?
    requires var ref := Resolve(p, fr.modl, base).value;
      var entries := p.constants[ref].entries;
      LiteralKeys(entries) && hit < |entries| && entries[hit].0 == key && Exact(p, ModuleFrame(ref.0), entries[hit].1, vals)
    ensures Exact(p, fr, Index(base, key), vals)
  {
    hide Derives, IsLocal;
    forall v ensures Derives(p, fr, Index(base, key), v) <==> v.VStr? && v.s in vals { IndexDerives(p, fr, base, key, v); }
  }

  /** A run-time key takes what any entry takes. */
  lemma LookupAny(p: Program, fr: Frame, base: string, lists: seq<set<string>>)
    requires !FrameLocal(fr, base) && IsDict(p, Resolve(p, fr.modl, base))
    requires var ref := Resolve(p, fr.modl, base).value;
      var entries := p.constants[ref].entries;
      LiteralKeys(entries) && entries != [] && AllExact(p, ModuleFrame(ref.0), EntryValues(entries), lists)
    ensures Exact(p, fr, Index(base, None), UnionAll(lists))
    ensures |lists| == 1 ==> UnionAll(lists) == lists[0]
  {
    hide Derives, IsLocal, UnionAll, Exact;
    var ref := Resolve(p, fr.modl, base).value;
    var entries := p.constants[ref].entries;
    var es := EntryValues(entries);
    forall v ensures Derives(p, fr, Index(base, None), v) <==> DerivesAny(p, ModuleFrame(ref.0), es, v) {
      IndexDerives(p, fr, base, None, v);
      if i :| 0 <= i < |es| && Derives(p, ModuleFrame(ref.0), es[i], v) { assert MayHit(entries, i, None); }
      if i :| 0 <= i < |entries| && MayHit(entries, i, None) && Derives(p, ModuleFrame(ref.0), entries[i].1, v) {
        assert es[i] == entries[i].1;
      }
    }
    UnionExact(p, ModuleFrame(ref.0), es, lists, fr, Index(base, None));
  }

  // -- calls -------------------------------------------------------------------------------------

  /** The parameter is bound to what its argument is: a function, or one string, which is its fold. */
  ghost predicate Carried(ref: Option<Key>, name: string, bindings: map<string, set<string>>, vars: map<string, Val>) {
    && name in vars && name in bindings
    && if ref.Some? then vars[name] == VFun(ref.value)
       else vars[name].VStr? && bindings[name] == {vars[name].s}
  }

  /** An argument takes one value. */
  lemma {:induction false} ArgumentExact(p: Program, rank: Item -> nat, n: nat, room: nat, at: Spot, env: Env, fr: Frame,
                                         e: Expr, depth: nat, st: State)
    returns (v: Val)
    requires ListsSets(p) && TextArgument(p, rank, n, room, at, e) && depth + room <= MAX_DEPTH
    requires Mirrors(at, env, fr) && MemoExact(p, rank, n, st) && !Evaluate(p, e, env, depth, st).st.capped
    ensures forall x :: Derives(p, fr, e, x) <==> x == v
    ensures var ref := RefOf(p, at.modl, at.funs, e);
      if ref.Some? then v == VFun(ref.value) else v.VStr? && Evaluate(p, e, env, depth, st).vals == {v.s}
    ensures Grows(p, rank, st, Evaluate(p, e, env, depth, st).st)
    decreases n, room, 1, 0
  {
    hide Unmemoised, Evaluate, Derives, MemoExact, TextExpr;
    var ref := RefOf(p, at.modl, at.funs, e);
    if ref.Some? {
      v := VFun(ref.value);
      GrowsNot(p, rank, st);
      PassedFunction(p, at, env, fr, e, depth, st);
    } else {
      hide Mirrors;
      FoldExact(p, rank, n, room, at, env, fr, true, e, depth, st);
      var s :| Evaluate(p, e, env, depth, st).vals == {s};
      v := VStr(s);
    }
  }

  /** A function passed on is that function at run time, and folding it leaves the memo alone. */
  lemma PassedFunction(p: Program, at: Spot, env: Env, fr: Frame, e: Expr, depth: nat, st: State)
    requires RefOf(p, at.modl, at.funs, e).Some? && RefOk(p, at, e) && Mirrors(at, env, fr) && depth <= MAX_DEPTH
    ensures forall x :: Derives(p, fr, e, x) <==> x == VFun(RefOf(p, at.modl, at.funs, e).value)
    ensures Evaluate(p, e, env, depth, st).st == st
  {
    hide Unmemoised, Derives, EvalConstant, AssignmentsTo, Plain, EvalList, EvalParts, EvalTargets, EvalSubscript, Product;
    var key := RefOf(p, at.modl, at.funs, e).value;
    if FunctionFor(p, at.modl, e).Some? {
      forall x ensures Derives(p, fr, e, x) <==> x == VFun(key) { FunctionDerives(p, fr, e, key, x); }
      if e.Name? && e.id !in env.stack { GlobalName(p, e.id, env, depth, st); }
    } else {
      forall x ensures Derives(p, fr, e, x) <==> x == VFun(key) { ParamDerives(p, fr, e.id, x); }
    }
  }

  lemma {:induction false} PairsExact(p: Program, rank: Item -> nat, n: nat, room: nat, at: Spot, env: Env, fr: Frame,
                                      pairs: seq<(string, Expr)>, depth: nat, bindings: map<string, set<string>>,
                                      st: State)
    returns (vars: map<string, Val>)
    requires ListsSets(p) && Distinct(pairs) && depth + room <= MAX_DEPTH && Mirrors(at, env, fr)
    requires forall i :: 0 <= i < |pairs| ==> TextArgument(p, rank, n, room, at, pairs[i].1)
    requires MemoExact(p, rank, n, st) && !EvalPairs(p, pairs, env, depth, bindings, st).st.capped
    ensures var r := EvalPairs(p, pairs, env, depth, bindings, st);
      && Binds(p, fr, pairs, vars) && vars.Keys == PairNames(pairs) && Grows(p, rank, st, r.st)
      && r.bindings.Keys == bindings.Keys + PairNames(pairs)
      && (forall x | x in bindings && x !in PairNames(pairs) :: r.bindings[x] == bindings[x])
      && forall i :: 0 <= i < |pairs| ==>
           Carried(RefOf(p, at.modl, at.funs, pairs[i].1), pairs[i].0, r.bindings, vars)
    decreases n, room, |pairs| + 2, 0
  {
    hide Unmemoised, Evaluate, Derives, MemoExact, Mirrors, TextArgument, RefOf, Binds, Grows, PairNames;
    if pairs == [] {
      vars := map[];
      BindsNothing(p, fr);
      GrowsNot(p, rank, st);
      assert PairNames(pairs) == {} by { NoNames(); }
    } else {
      var r := Evaluate(p, pairs[0].1, env, depth, st);
      var more := bindings[pairs[0].0 := r.vals];
      EvalPairsCaps(p, pairs, env, depth, bindings, st);
      var v := ArgumentExact(p, rank, n, room, at, env, fr, pairs[0].1, depth, st);
      MemoGrows(p, rank, n, st, r.st);
      var rest := PairsExact(p, rank, n, room, at, env, fr, pairs[1..], depth, more, r.st);
      vars := rest[pairs[0].0 := v];
      BindsOneMore(p, fr, pairs, v, rest);
      PairNamesCons(pairs);
      NameNotLater(pairs);
      GrowsOn(p, rank, st, r.st, EvalPairs(p, pairs[1..], env, depth, more, r.st).st);
      CarriedOn(p, at, pairs, EvalPairs(p, pairs, env, depth, bindings, st).bindings, rest, v);
    }
  }

  lemma NoNames()
    ensures PairNames([]) == {}
  {}

  lemma EvalPairsCaps(p: Program, pairs: seq<(string, Expr)>, env: Env, depth: nat, bindings: map<string, set<string>>,
                      st: State)
    requires depth <= MAX_DEPTH + 1 && pairs != []
    ensures var r := Evaluate(p, pairs[0].1, env, depth, st);
      EvalPairs(p, pairs, env, depth, bindings, st) == EvalPairs(p, pairs[1..], env, depth, bindings[pairs[0].0 := r.vals], r.st)
    ensures Evaluate(p, pairs[0].1, env, depth, st).st.capped ==> EvalPairs(p, pairs, env, depth, bindings, st).st.capped
  {
    hide Unmemoised, Evaluate;
  }

  lemma NameNotLater(pairs: seq<(string, Expr)>)
    requires pairs != [] && Distinct(pairs)
    ensures pairs[0].0 !in PairNames(pairs[1..])
  {
    forall i | 0 <= i < |pairs[1..]| ensures pairs[1..][i].0 != pairs[0].0 { assert pairs[i + 1] == pairs[1..][i]; }
  }

  lemma CarriedOn(p: Program, at: Spot, pairs: seq<(string, Expr)>, bindings: map<string, set<string>>, rest: map<string, Val>,
                  v: Val)
    requires pairs != [] && pairs[0].0 !in rest && Distinct(pairs)
    requires Carried(RefOf(p, at.modl, at.funs, pairs[0].1), pairs[0].0, bindings, rest[pairs[0].0 := v])
    requires forall i :: 0 <= i < |pairs[1..]| ==>
      Carried(RefOf(p, at.modl, at.funs, pairs[1..][i].1), pairs[1..][i].0, bindings, rest)
    ensures forall i :: 0 <= i < |pairs| ==>
      Carried(RefOf(p, at.modl, at.funs, pairs[i].1), pairs[i].0, bindings, rest[pairs[0].0 := v])
  {
    hide RefOf;
    forall i | 0 <= i < |pairs|
      ensures Carried(RefOf(p, at.modl, at.funs, pairs[i].1), pairs[i].0, bindings, rest[pairs[0].0 := v])
    {
      if i > 0 { assert pairs[1..][i - 1] == pairs[i]; }
    }
  }

  predicate Passes(p: Program, env: Env, pair: (string, Expr), name: string, key: Key) {
    pair.0 == name && RefOf(p, env.modl, env.callables, pair.1) == Some(key)
  }

  /** The parameters noted as functions are those an argument passes one to. */
  lemma {:induction false} CallablesAre(p: Program, env: Env, pairs: seq<(string, Expr)>, x: string)
    requires x in Callables(p, env, pairs)
    ensures exists i :: 0 <= i < |pairs| && Passes(p, env, pairs[i], x, Callables(p, env, pairs)[x])
    decreases |pairs|
  {
    hide FunctionFor;
    if x in Callables(p, env, pairs[1..]) {
      CallablesAre(p, env, pairs[1..], x);
      var i :| 0 <= i < |pairs[1..]| && Passes(p, env, pairs[1..][i], x, Callables(p, env, pairs[1..])[x]);
      assert pairs[i + 1] == pairs[1..][i];
    } else {
      assert Passes(p, env, pairs[0], x, Callables(p, env, pairs)[x]);
    }
  }

  /** Conversely, every argument that passes a function notes its parameter, under distinct names. */
  lemma {:induction false} CallablesMean(p: Program, env: Env, pairs: seq<(string, Expr)>, x: string, key: Key)
    requires Distinct(pairs)
    ensures x in Callables(p, env, pairs) && Callables(p, env, pairs)[x] == key
      <==> exists i :: 0 <= i < |pairs| && Passes(p, env, pairs[i], x, key)
    decreases |pairs|
  {
    hide FunctionFor;
    if pairs == [] {
    } else {
      CallablesMean(p, env, pairs[1..], x, key);
      NameNotLater(pairs);
      var later := Callables(p, env, pairs[1..]);
      if pairs[0].0 in later { CallablesAre(p, env, pairs[1..], pairs[0].0); NamedLater(p, env, pairs, later[pairs[0].0]); }
      if i :| 0 <= i < |pairs| && Passes(p, env, pairs[i], x, key) && i > 0 { assert pairs[1..][i - 1] == pairs[i]; }
      if i :| 0 <= i < |pairs[1..]| && Passes(p, env, pairs[1..][i], x, key) { assert pairs[i + 1] == pairs[1..][i]; }
    }
  }

  /** No later pair has the first one's name. */
  lemma NamedLater(p: Program, env: Env, pairs: seq<(string, Expr)>, key: Key)
    requires Distinct(pairs) && pairs != []
    ensures !exists i :: 0 <= i < |pairs[1..]| && Passes(p, env, pairs[1..][i], pairs[0].0, key)
  {
    hide RefOf;
    forall i | 0 <= i < |pairs[1..]| ensures pairs[1..][i].0 != pairs[0].0 { assert pairs[i + 1] == pairs[1..][i]; }
  }

  lemma {:induction false} SameCallables(p: Program, a: Env, b: Env, pairs: seq<(string, Expr)>)
    requires a.modl == b.modl && a.callables == b.callables
    ensures Callables(p, a, pairs) == Callables(p, b, pairs)
    decreases |pairs|
  {
    hide FunctionFor;
    if pairs != [] { SameCallables(p, a, b, pairs[1..]); }
  }

  lemma {:induction false} ReturnsSomething(b: seq<Stmt>)
    requires AlwaysReturns(b) && !BareReturn(b)
    ensures ReturnsOf(b) != []
    decreases b
  {
    if StmtAlwaysReturns(b[0]) {
      match b[0]
      case Return(_) =>
      case If(thn, _) => ReturnsSomething(thn);
      case Try(body, _) => ReturnsSomething(body);
    } else {
      ReturnsSomething(b[1..]);
    }
  }

  /** What folding the call comes to. */
  lemma EvaluateHelperCall(p: Program, at: Spot, env: Env, fr: Frame, callee: Expr, args: seq<Expr>,
                           keywords: seq<(string, Expr)>, depth: nat, st: State)
    requires var ref := RefOf(p, at.modl, at.funs, callee);
      && ref.Some? && RefOk(p, at, callee) && ref.value in p.functions && |p.functions[ref.value]| == 1
      && p.functions[ref.value][0].name !in at.busy
    requires Mirrors(at, env, fr) && depth <= 32
    ensures var fn := p.functions[RefOf(p, at.modl, at.funs, callee).value][0];
      var rs := Expanded(p, fn, args, keywords, env, depth, st);
      && Callee(p, fr, callee) == Some(fn)
      && Evaluate(p, Call(callee, args, keywords), env, depth, st) == Fold(OrHole(UnionAll(rs.lists)), rs.st)
  {
    hide Evaluate, Expanded, UnionAll, AssignmentsTo, Plain;
    EvaluateCall(p, callee, args, keywords, env, depth, st);
  }

  /** Inside the helper the environment and the frame agree again. */
  lemma CalleeMirrors(p: Program, at: Spot, env: Env, fr: Frame, fn: Fn, args: seq<Expr>, keywords: seq<(string, Expr)>,
                      bindings: map<string, set<string>>, given: map<string, Val>, filled: map<string, Val>)
    requires Mirrors(at, env, fr)
    requires var pairs := CallPairs(fn, args, keywords);
      var left := DefaultsLeft(fn.defaults, PairNames(pairs));
      && bindings.Keys == PairNames(pairs) + PairNames(left)
      && given.Keys == PairNames(pairs) && filled.Keys == PairNames(left)
      && (forall i :: 0 <= i < |pairs| ==>
            Carried(RefOf(p, at.modl, at.funs, pairs[i].1), pairs[i].0, bindings, given))
      && (forall i :: 0 <= i < |left| ==> Carried(None, left[i].0, bindings, filled))
    ensures var pairs := CallPairs(fn, args, keywords);
      var left := DefaultsLeft(fn.defaults, PairNames(pairs));
      Mirrors(CalleeSpot(p, at, fn, pairs, left), CalleeEnv(p, fn, args, keywords, env, bindings),
              Frame(fn.modl, Some(fn), filled + given))
  {
    hide RefOf, CallPairs;
    var pairs := CallPairs(fn, args, keywords);
    var left := DefaultsLeft(fn.defaults, PairNames(pairs));
    var inner, spot, vars := CalleeEnv(p, fn, args, keywords, env, bindings), CalleeSpot(p, at, fn, pairs, left), filled + given;
    hide DefaultsLeft;
    SameCallables(p, Env(at.modl, at.fn, map[], at.busy, at.funs), env, pairs);
    assert inner.callables == spot.funs;
    forall x | x in spot.funs ensures x in vars && vars[x] == VFun(spot.funs[x]) { CallablesAre(p, env, pairs, x); }
    forall x | x in spot.texts ensures x in spot.bound && x in vars && vars[x].VStr? && bindings[x] == {vars[x].s} {
      if x in PairNames(left) {
        var i :| 0 <= i < |left| && left[i].0 == x;
        assert left[i].0 !in PairNames(pairs);
      }
    }
  }

  /** The helper's parameters are bound, by the folder and at run time, to the same single strings and
      functions. */
  lemma {:induction false} BindExact(p: Program, rank: Item -> nat, n: nat, m: nat, room: nat, at: Spot, env: Env,
                                     fr: Frame, one: bool, fn: Fn, args: seq<Expr>, keywords: seq<(string, Expr)>,
                                     depth: nat, st: State)
    returns (given: map<string, Val>, filled: map<string, Val>)
    requires ListsSets(p) && m < n && TextCall(p, rank, n, m, room, at, one, fn, args, keywords)
    requires depth + room < MAX_DEPTH && Mirrors(at, env, fr) && MemoExact(p, rank, n, st)
    requires !BindCall(p, fn, args, keywords, env, depth, st).st.capped
    ensures var pairs := CallPairs(fn, args, keywords);
      var left := DefaultsLeft(fn.defaults, PairNames(pairs));
      var bound := BindCall(p, fn, args, keywords, env, depth, st);
      && Binds(p, fr, pairs, given) && Binds(p, ModuleFrame(fn.modl), left, filled) && FullyBound(fn, filled + given)
      && Mirrors(CalleeSpot(p, at, fn, pairs, left), CalleeEnv(p, fn, args, keywords, env, bound.bindings),
                 Frame(fn.modl, Some(fn), filled + given))
      && Grows(p, rank, st, bound.st)
    decreases n, room, |CallPairs(fn, args, keywords)| + 3, 0
  {
    hide Unmemoised, EvalPairs, Binds, CallPairs, DefaultsLeft, PairNames, MemoExact, Grows, TextExpr, TextArgument, RefOf,
      AcceptedCall, MayReturnNone, ReturnsOf, CalleeSpot, CalleeEnv, Mirrors;
    var pairs := CallPairs(fn, args, keywords);
    var left := DefaultsLeft(fn.defaults, PairNames(pairs));
    var outer := DefaultsEnv(fn, env);
    var first := EvalPairs(p, pairs, env, depth + 1, map[], st);
    var bound := EvalPairs(p, left, outer, depth + 1, first.bindings, first.st);
    BindCallIs(p, fn, args, keywords, env, depth, st);
    PairsDistinct(fn, args, keywords);
    DefaultsDistinct(fn.defaults, PairNames(pairs));
    given := PairsExact(p, rank, n, room, at, env, fr, pairs, depth + 1, map[], st);
    MemoGrows(p, rank, n, st, first.st);
    FewerExact(p, rank, n, m, first.st);
    DefaultsMirror(at, env, fr, fn);
    DefaultsAreText(p, rank, m, room, at, fn, left);
    filled := PairsExact(p, rank, m, room, DefaultSpot(at, fn), outer, ModuleFrame(fn.modl), left, depth + 1, first.bindings,
                         first.st);
    GrowsOn(p, rank, st, first.st, bound.st);
    BindingsKept(p, at, fn, pairs, left, first.bindings, bound.bindings, given, filled);
    CalleeMirrors(p, at, env, fr, fn, args, keywords, bound.bindings, given, filled);
  }

  lemma BindCallIs(p: Program, fn: Fn, args: seq<Expr>, keywords: seq<(string, Expr)>, env: Env, depth: nat, st: State)
    requires depth <= MAX_DEPTH
    ensures var pairs := CallPairs(fn, args, keywords);
      var first := EvalPairs(p, pairs, env, depth + 1, map[], st);
      var bound := EvalPairs(p, DefaultsLeft(fn.defaults, PairNames(pairs)), DefaultsEnv(fn, env), depth + 1, first.bindings, first.st);
      BindCall(p, fn, args, keywords, env, depth, st) == bound && (first.st.capped ==> bound.st.capped)
  {
    hide Unmemoised, EvalPairs, CallPairs, DefaultsLeft, PairNames;
  }

  lemma PairsDistinct(fn: Fn, args: seq<Expr>, keywords: seq<(string, Expr)>)
    requires AcceptedCall(fn, args, keywords)
    ensures Distinct(CallPairs(fn, args, keywords))
  {
    hide CallPairs;
  }

  lemma DefaultsMirror(at: Spot, env: Env, fr: Frame, fn: Fn)
    requires Mirrors(at, env, fr)
    ensures Mirrors(DefaultSpot(at, fn), DefaultsEnv(fn, env), ModuleFrame(fn.modl))
  {}

  lemma DefaultsAreText(p: Program, rank: Item -> nat, m: nat, room: nat, at: Spot, fn: Fn, left: seq<(string, Expr)>)
    requires forall i :: 0 <= i < |left| ==>
      FunctionFor(p, fn.modl, left[i].1).None? && TextExpr(p, rank, m, room, DefaultSpot(at, fn), true, left[i].1)
    ensures forall i :: 0 <= i < |left| ==> RefOf(p, fn.modl, map[], left[i].1) == None
    ensures forall i :: 0 <= i < |left| ==> TextArgument(p, rank, m, room, DefaultSpot(at, fn), left[i].1)
  {
    hide TextExpr;
  }

  /** Filling in the defaults leaves the given arguments as they are. */
  lemma BindingsKept(p: Program, at: Spot, fn: Fn, pairs: seq<(string, Expr)>, left: seq<(string, Expr)>,
                     first: map<string, set<string>>, bound: map<string, set<string>>, given: map<string, Val>,
                     filled: map<string, Val>)
    requires left == DefaultsLeft(fn.defaults, PairNames(pairs)) && Completes(fn, pairs, left)
    requires given.Keys == PairNames(pairs) == first.Keys && filled.Keys == PairNames(left)
    requires forall x | x in first && x !in PairNames(left) :: x in bound && bound[x] == first[x]
    requires forall i :: 0 <= i < |pairs| ==>
      Carried(RefOf(p, at.modl, at.funs, pairs[i].1), pairs[i].0, first, given)
    ensures forall i :: 0 <= i < |pairs| ==>
      Carried(RefOf(p, at.modl, at.funs, pairs[i].1), pairs[i].0, bound, given)
    ensures FullyBound(fn, filled + given)
  {
    hide RefOf, DefaultsLeft;
    forall i | 0 <= i < |pairs| ensures pairs[i].0 !in PairNames(left) {
      if j :| 0 <= j < |left| && left[j].0 == pairs[i].0 { assert left[j].0 !in PairNames(pairs); }
    }
  }

  lemma {:induction false} CallFold(p: Program, rank: Item -> nat, n: nat, room: nat, at: Spot, env: Env, fr: Frame,
                                    one: bool, callee: Expr, args: seq<Expr>, keywords: seq<(string, Expr)>, depth: nat,
                                    st: State)
    requires ListsSets(p) && TextExpr(p, rank, n, room, at, one, Call(callee, args, keywords)) && depth + room <= MAX_DEPTH
    requires Mirrors(at, env, fr) && MemoExact(p, rank, n, st)
    requires !Evaluate(p, Call(callee, args, keywords), env, depth, st).st.capped
    ensures var v := Evaluate(p, Call(callee, args, keywords), env, depth, st);
      Exact(p, fr, Call(callee, args, keywords), v.vals) && (one ==> One(v.vals)) && Grows(p, rank, st, v.st)
    decreases n, room, 0, 2
  {
    hide Unmemoised, Evaluate, EvalList, BindCall, Derives, Mirrors, MemoExact, Grows, One, UnionAll, RefOf, RefOk, CallPairs,
      DefaultsLeft, PairNames, ReturnsOf, AcceptedCall, CalleeSpot, CalleeEnv, MayReturnNone, FullyBound, Binds, Callee, Distinct,
      TextArgument, Completes;
    var e := Call(callee, args, keywords);
    var key := RefOf(p, at.modl, at.funs, callee).value;
    var fn, m := p.functions[key][0], rank(Definition(key));
    var pairs, rets := CallPairs(fn, args, keywords), ReturnsOf(fn.body);
    var left := DefaultsLeft(fn.defaults, PairNames(pairs));
    EvaluateHelperCall(p, at, env, fr, callee, args, keywords, depth, st);
    var bound := BindCall(p, fn, args, keywords, env, depth, st);
    var inner := CalleeEnv(p, fn, args, keywords, env, bound.bindings);
    var rs := EvalList(p, rets, inner, depth + 1, bound.st);
    var given, filled := BindExact(p, rank, n, m, room - 1, at, env, fr, one, fn, args, keywords, depth, st);
    MemoGrows(p, rank, n, st, bound.st);
    FewerExact(p, rank, n, m, bound.st);
    var here := Frame(fn.modl, Some(fn), filled + given);
    ListExact(p, rank, m, room - 1, CalleeSpot(p, at, fn, pairs, left), inner, here, one, rets, depth + 1, bound.st);
    GrowsOn(p, rank, st, bound.st, rs.st);
    forall v ensures Derives(p, fr, e, v) <==> DerivesAny(p, here, rets, v) {
      CallDerives(p, fr, callee, args, keywords, fn, given, filled, v);
    }
    assert rets != [] by { ReturnsWhatever(fn); }
    UnionExact(p, here, rets, rs.lists, fr, e);
    ExactNonEmpty(p, fr, e, UnionAll(rs.lists));
  }

  lemma ReturnsWhatever(fn: Fn)
    requires !MayReturnNone(fn)
    ensures ReturnsOf(fn.body) != []
  {
    ReturnsSomething(fn.body);
  }

  // -- the theorems ------------------------------------------------------------------------------

  lemma Taken(p: Program, fr: Frame, e: Expr, vals: set<string>, s: string)
    requires Exact(p, fr, e, vals)
    ensures s in vals <==> exists u :: Value(p, Collect, fr, e, u) == Some(VStr(s))
  {
    DerivesMeans(p, fr, e, VStr(s));
    hide Value;
  }

  /** EXACTNESS AT MODULE LEVEL.  Folded by a fresh analyzer, text yields precisely the strings it can take: no
      string is missed and none is added. */
  lemma TextFoldsToItsStrings(p: Program, rank: Item -> nat, n: nat, modl: string, e: Expr, s: string)
    requires ListsSets(p) && TextExpr(p, rank, n, 40, ModuleSpot(modl), false, e)
    requires !Evaluate(p, e, Env(modl, None, map[], [], map[]), 0, State(map[], false)).st.capped
    ensures s in Evaluate(p, e, Env(modl, None, map[], [], map[]), 0, State(map[], false)).vals
      <==> exists u :: Value(p, Collect, ModuleFrame(modl), e, u) == Some(VStr(s))
  {
    hide Evaluate, Unmemoised, TextExpr, Exact;
    var env, st := Env(modl, None, map[], [], map[]), State(map[], false);
    assert Mirrors(ModuleSpot(modl), env, ModuleFrame(modl));
    FoldExact(p, rank, n, 40, ModuleSpot(modl), env, ModuleFrame(modl), false, e, 0, st);
    Taken(p, ModuleFrame(modl), e, Evaluate(p, e, env, 0, st).vals, s);
  }

  /** EXACTNESS OF CONSTANTS.  A module constant that is text folds to precisely the strings it can hold. */
  lemma ConstantFoldsToItsStrings(p: Program, rank: Item -> nat, key: Key, s: string)
    requires ListsSets(p) && key in p.constants && TextConstant(p, rank, key, false)
    requires !EvalConstant(p, key, State(map[], false)).st.capped
    ensures s in EvalConstant(p, key, State(map[], false)).vals
      <==> exists u :: Value(p, Collect, ModuleFrame(key.0), p.constants[key], u) == Some(VStr(s))
  {
    hide Evaluate, EvalConstant, Unmemoised, TextConstant, Exact;
    ConstantExact(p, rank, rank(Definition(key)) + 1, key, false, State(map[], false));
    Taken(p, ModuleFrame(key.0), p.constants[key], EvalConstant(p, key, State(map[], false)).vals, s);
  }

  /** EXACTNESS OF LOOKUPS.  A lookup in a dictionary with literal, distinct keys folds to the strings of all
      entries for a run-time key, and to those of its own entry for a literal one. */
  lemma LookupFoldsToItsEntries(p: Program, rank: Item -> nat, n: nat, modl: string, base: string, key: Option<string>,
                                s: string)
    requires ListsSets(p) && TextExpr(p, rank, n, 40, ModuleSpot(modl), false, Index(base, key))
    requires !Evaluate(p, Index(base, key), Env(modl, None, map[], [], map[]), 0, State(map[], false)).st.capped
    ensures IsDict(p, Resolve(p, modl, base))
    ensures var ref := Resolve(p, modl, base).value;
      var entries := p.constants[ref].entries;
      s in Evaluate(p, Index(base, key), Env(modl, None, map[], [], map[]), 0, State(map[], false)).vals <==>
      exists i :: 0 <= i < |entries| && (key.None? || entries[i].0 == key) && Derives(p, ModuleFrame(ref.0), entries[i].1, VStr(s))
  {
    hide Evaluate, Unmemoised, Value, IsLocal, Derives;
    TextFoldsToItsStrings(p, rank, n, modl, Index(base, key), s);
    DerivesMeans(p, ModuleFrame(modl), Index(base, key), VStr(s));
    IndexDerives(p, ModuleFrame(modl), base, key, VStr(s));
    LiteralHits(p.constants[Resolve(p, modl, base).value].entries, key);
  }

  lemma DerivesMeans(p: Program, fr: Frame, e: Expr, v: Val)
    ensures Derives(p, fr, e, v) <==> exists u :: Value(p, Collect, fr, e, u) == Some(v)
  {
    hide Value;
    if u :| Value(p, Collect, fr, e, u) == Some(v) { SomeTrace(p, fr, e, u, v); }
  }

  lemma LiteralHits(entries: seq<(Option<string>, Expr)>, key: Option<string>)
    requires LiteralKeys(entries)
    ensures forall i: nat | i < |entries| :: MayHit(entries, i, key) <==> key.None? || entries[i].0 == key
  {
    forall i: nat | i < |entries| ensures MayHit(entries, i, key) <==> key.None? || entries[i].0 == key {
      assert entries[i].0.Some?;
    }
  }
}
