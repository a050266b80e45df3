/** The constant folder as a function: which templates an expression folds to, threading the
    memo of module constants.  Its recursion is well founded on every program, cyclic
    constants and recursive helpers included. */
module Folder {
  import opened Options
  import opened PySyntax
  import opened Templates

  const MAX_DEPTH := 40
  const MAX_CALL_DEPTH := 8
  const MAX_TEMPLATES_PER_EXPR := 64

  /** Where an expression is folded: the module and function, the parameters bound so far, the
      names being resolved, and the parameters bound to a package function. */
  datatype Env = Env(modl: string, fn: Option<Fn>, bindings: map<string, set<string>>,
                     stack: seq<string>, callables: map<string, Key>)

  /** memo: module constants folded so far; capped: some product was cut at the limit. */
  datatype State = State(memo: map<Key, set<string>>, capped: bool)

  datatype Fold = Fold(vals: set<string>, st: State)
  datatype FoldList = FoldList(lists: seq<set<string>>, st: State)
  datatype FoldMap = FoldMap(bindings: map<string, set<string>>, st: State)

  /** Module constants not memoised yet: what bounds the recursion through constants. */
  function Unmemoised(p: Program, st: State): nat {
    |p.constants.Keys - st.memo.Keys|
  }

  lemma MemoiseOne(p: Program, st: State, key: Key, vals: set<string>, capped: bool)
    ensures Unmemoised(p, State(st.memo[key := vals], capped)) <= Unmemoised(p, st)
    ensures key in p.constants && key !in st.memo ==>
      Unmemoised(p, State(st.memo[key := vals], capped)) < Unmemoised(p, st)
  {
    var before := p.constants.Keys - st.memo.Keys;
    var after := p.constants.Keys - st.memo[key := vals].Keys;
    assert after == before - {key};
  }

  // -- products --------------------------------------------------------------------------------

  function Prefixed(x: string, rest: seq<string>): seq<string> {
    seq(|rest|, i requires 0 <= i < |rest| => x + rest[i])
  }

  function Cross(xs: seq<string>, rest: seq<string>): seq<string> {
    if xs == [] then [] else Prefixed(xs[0], rest) + Cross(xs[1..], rest)
  }

  /** Every concatenation of one choice per list, in the order itertools.product yields. */
  function Combos(lists: seq<seq<string>>): seq<string> {
    if lists == [] then [""] else Cross(lists[0], Combos(lists[1..]))
  }

  function Listed(p: Program, parts: seq<set<string>>): seq<seq<string>> {
    seq(|parts|, i requires 0 <= i < |parts| => p.order(parts[i]))
  }

  /** The first MAX_TEMPLATES_PER_EXPR concatenations. */
  function Product(p: Program, parts: seq<set<string>>, st: State): (r: Fold)
    ensures r.st.memo == st.memo && (st.capped ==> r.st.capped)
  {
    var combos := Combos(Listed(p, parts));
    var taken := if |combos| <= MAX_TEMPLATES_PER_EXPR then combos else combos[..MAX_TEMPLATES_PER_EXPR];
    Fold(OrHole(set x | x in taken),
         State(st.memo, st.capped || |combos| > MAX_TEMPLATES_PER_EXPR))
  }

  function UnionAll(lists: seq<set<string>>): set<string> {
    if lists == [] then {} else lists[0] + UnionAll(lists[1..])
  }

  function OrHole(vals: set<string>): (r: set<string>)
    ensures r != {}
  {
    if vals == {} then {HOLE} else vals
  }

  // -- callees ---------------------------------------------------------------------------------

  /** The package functions an expression names, resolved at module level. */
  function FunctionFor(p: Program, modl: string, e: Expr): Option<Key> {
    var ref := match e
      case Name(id) => Resolve(p, modl, id)
      case Attr(alias, attr) => ResolveAttr(p, modl, alias, attr)
      case _ => None;
    if ref.Some? && ref.value in p.functions && p.functions[ref.value] != [] then ref else None
  }

  /** The functions a call may reach: those it names, else the one its parameter is bound to. */
  function Targets(p: Program, env: Env, callee: Expr): seq<Fn> {
    var direct := FunctionFor(p, env.modl, callee);
    if direct.Some? then p.functions[direct.value]
    else if callee.Name? && callee.id in env.callables && env.callables[callee.id] in p.functions
    then p.functions[env.callables[callee.id]]
    else []
  }

  /** Parameters bound to a function by reference, the later pair winning. */
  function Callables(p: Program, env: Env, pairs: seq<(string, Expr)>): map<string, Key>
  {
    if pairs == [] then map[]
    else
      var later := Callables(p, env, pairs[1..]);
      var direct := FunctionFor(p, env.modl, pairs[0].1);
      if pairs[0].0 in later then later
      else if direct.Some? then later[pairs[0].0 := direct.value]
      else if pairs[0].1.Name? && pairs[0].1.id in env.callables
      then later[pairs[0].0 := env.callables[pairs[0].1.id]]
      else later
  }

  // -- evaluation ------------------------------------------------------------------------------

  function Evaluate(p: Program, e: Expr, env: Env, depth: nat, st: State): (r: Fold)
    requires depth <= MAX_DEPTH + 1
    ensures Unmemoised(p, r.st) <= Unmemoised(p, st)
    ensures st.capped ==> r.st.capped
    decreases Unmemoised(p, st), MAX_DEPTH + 1 - depth, 2, 0
  {
    if depth > MAX_DEPTH then Fold({HOLE}, st)
    else
      match e
      case Str(s) => Fold({s}, st)
      case FString(parts) =>
        var r := EvalParts(p, parts, env, depth + 1, st);
        Product(p, r.lists, r.st)
      case Name(id) => EvalName(p, id, env, depth, st)
      case Attr(alias, attr) =>
        var ref := ResolveAttr(p, env.modl, alias, attr);
        if ref.Some? && ref.value in p.constants then EvalConstant(p, ref.value, st) else Fold({HOLE}, st)
      case Plus(l, r) =>
        var a := Evaluate(p, l, env, depth + 1, st);
        var b := Evaluate(p, r, env, depth + 1, a.st);
        Product(p, [a.vals, b.vals], b.st)
      case Cond(thn, els) =>
        var a := Evaluate(p, thn, env, depth + 1, st);
        var b := Evaluate(p, els, env, depth + 1, a.st);
        Fold(a.vals + b.vals, b.st)
      case Bool(values) =>
        var rs := EvalList(p, values, env, depth + 1, st);
        Fold(UnionAll(rs.lists), rs.st)
      case Index(base, key) => EvalSubscript(p, base, key, env, depth, st)
      case Strip(recv) => Evaluate(p, recv, env, depth + 1, st)
      case Format(recv) =>
        var r := Evaluate(p, recv, env, depth + 1, st);
        Fold(set t | t in r.vals :: SubFields(t), r.st)
      case Call(callee, args, keywords) =>
        var targets := Targets(p, env, callee);
        if targets == [] || depth > MAX_CALL_DEPTH * 4 then Fold({HOLE}, st)
        else
          var r := EvalTargets(p, targets, args, keywords, env, depth, st);
          Fold(OrHole(r.vals), r.st)
      case _ => Fold({HOLE}, st)
  }

  function EvalName(p: Program, id: string, env: Env, depth: nat, st: State): (r: Fold)
    requires depth <= MAX_DEPTH
    ensures Unmemoised(p, r.st) <= Unmemoised(p, st)
    ensures st.capped ==> r.st.capped
    decreases Unmemoised(p, st), MAX_DEPTH + 1 - depth, 1, 0
  {
    if id in env.bindings then Fold(env.bindings[id], st)
    else if id in env.stack then Fold({HOLE}, st)
    else
      var rhs := if env.fn.Some? then AssignmentsTo(env.fn.value.body, id) else [];
      var inner := Env(env.modl, env.fn, env.bindings, env.stack + [id], map[]);
      var rs := EvalList(p, rhs, inner, depth + 1, st);
      var vals := UnionAll(rs.lists);
      if vals != {} then Fold(vals, rs.st)
      else
        var ref := Resolve(p, env.modl, id);
        if ref.Some? && ref.value in p.constants then EvalConstant(p, ref.value, rs.st) else Fold({HOLE}, rs.st)
  }

  /** A module constant is folded once; while it is being folded it counts as a placeholder. */
  function EvalConstant(p: Program, key: Key, st: State): (r: Fold)
    requires key in p.constants
    ensures Unmemoised(p, r.st) <= Unmemoised(p, st)
    ensures st.capped ==> r.st.capped
    decreases Unmemoised(p, st), 0, 0, 0
  {
    if key in st.memo then Fold(st.memo[key], st)
    else
      MemoiseOne(p, st, key, {HOLE}, st.capped);
      var guarded := State(st.memo[key := {HOLE}], st.capped);
      var r := Evaluate(p, p.constants[key], Env(key.0, None, map[], [key.1], map[]), 0, guarded);
      MemoiseOne(p, r.st, key, r.vals, r.st.capped);
      Fold(r.vals, State(r.st.memo[key := r.vals], r.st.capped))
  }

  function EvalSubscript(p: Program, base: string, key: Option<string>, env: Env, depth: nat, st: State): (r: Fold)
    requires depth <= MAX_DEPTH
    ensures Unmemoised(p, r.st) <= Unmemoised(p, st)
    ensures st.capped ==> r.st.capped
    decreases Unmemoised(p, st), MAX_DEPTH + 1 - depth, 1, 0
  {
    var ref := Resolve(p, env.modl, base);
    if ref.None? || ref.value !in p.constants || !p.constants[ref.value].DictDisplay? then Fold({HOLE}, st)
    else
      var entries := p.constants[ref.value].entries;
      var keyEnv := Env(ref.value.0, None, map[], [], map[]);
      var hit := if key.Some? then FirstWithKey(entries, key.value) else |entries|;
      if hit < |entries| then Evaluate(p, entries[hit].1, keyEnv, depth + 1, st)
      else
        var rs := EvalList(p, seq(|entries|, i requires 0 <= i < |entries| => entries[i].1), keyEnv, depth + 1, st);
        Fold(OrHole(UnionAll(rs.lists)), rs.st)
  }

  function FirstWithKey(entries: seq<(Option<string>, Expr)>, key: string): nat {
    if entries == [] || entries[0].0 == Some(key) then 0 else 1 + FirstWithKey(entries[1..], key)
  }

  function EvalList(p: Program, es: seq<Expr>, env: Env, depth: nat, st: State): (r: FoldList)
    requires depth <= MAX_DEPTH + 1
    ensures Unmemoised(p, r.st) <= Unmemoised(p, st)
    ensures st.capped ==> r.st.capped
    ensures |r.lists| == |es|
    decreases Unmemoised(p, st), MAX_DEPTH + 1 - depth, 3, |es|
  {
    if es == [] then FoldList([], st)
    else
      var r := Evaluate(p, es[0], env, depth, st);
      var rest := EvalList(p, es[1..], env, depth, r.st);
      FoldList([r.vals] + rest.lists, rest.st)
  }

  function EvalParts(p: Program, parts: seq<Part>, env: Env, depth: nat, st: State): (r: FoldList)
    requires depth <= MAX_DEPTH + 1
    ensures Unmemoised(p, r.st) <= Unmemoised(p, st)
    ensures st.capped ==> r.st.capped
    ensures |r.lists| == |parts|
    decreases Unmemoised(p, st), MAX_DEPTH + 1 - depth, 3, |parts|
  {
    if parts == [] then FoldList([], st)
    else
      var r := match parts[0]
        case Text(s) => Fold({s}, st)
        case Field(e, spec) => if spec then Fold({HOLE}, st) else Evaluate(p, e, env, depth, st);
      var rest := EvalParts(p, parts[1..], env, depth, r.st);
      FoldList([r.vals] + rest.lists, rest.st)
  }

  /** The folds of (name, expression) pairs, added to the bindings; a later pair wins. */
  function EvalPairs(p: Program, pairs: seq<(string, Expr)>, env: Env, depth: nat,
                     bindings: map<string, set<string>>, st: State): (r: FoldMap)
    requires depth <= MAX_DEPTH + 1
    ensures Unmemoised(p, r.st) <= Unmemoised(p, st)
    ensures st.capped ==> r.st.capped
    decreases Unmemoised(p, st), MAX_DEPTH + 1 - depth, 3, |pairs|
  {
    if pairs == [] then FoldMap(bindings, st)
    else
      var r := Evaluate(p, pairs[0].1, env, depth, st);
      EvalPairs(p, pairs[1..], env, depth, bindings[pairs[0].0 := r.vals], r.st)
  }

  /** The environment inside a callee: its parameters bound to the arguments' folds and, where
      the call leaves them out, to the defaults' folds. */
  function BindCall(p: Program, fn: Fn, args: seq<Expr>, keywords: seq<(string, Expr)>, caller: Env,
                    depth: nat, st: State): (r: FoldMap)
    requires depth <= MAX_DEPTH
    ensures Unmemoised(p, r.st) <= Unmemoised(p, st)
    ensures st.capped ==> r.st.capped
    decreases Unmemoised(p, st), MAX_DEPTH + 1 - depth, 0, 0
  {
    var pairs := CallPairs(fn, args, keywords);
    var given := EvalPairs(p, pairs, caller, depth + 1, map[], st);
    var inner := Env(fn.modl, Some(fn), map[], caller.stack + [fn.name], map[]);
    EvalPairs(p, DefaultsLeft(fn.defaults, PairNames(pairs)), inner, depth + 1, given.bindings, given.st)
  }

  function CalleeEnv(p: Program, fn: Fn, args: seq<Expr>, keywords: seq<(string, Expr)>, caller: Env,
                     bindings: map<string, set<string>>): Env {
    Env(fn.modl, Some(fn), bindings, caller.stack + [fn.name], Callables(p, caller, CallPairs(fn, args, keywords)))
  }

  function EvalTargets(p: Program, targets: seq<Fn>, args: seq<Expr>, keywords: seq<(string, Expr)>,
                       env: Env, depth: nat, st: State): (r: Fold)
    requires depth <= MAX_DEPTH
    ensures Unmemoised(p, r.st) <= Unmemoised(p, st)
    ensures st.capped ==> r.st.capped
    decreases Unmemoised(p, st), MAX_DEPTH + 1 - depth, 1, |targets|
  {
    if targets == [] then Fold({}, st)
    else if targets[0].name in env.stack then EvalTargets(p, targets[1..], args, keywords, env, depth, st)
    else
      var fn := targets[0];
      var bound := BindCall(p, fn, args, keywords, env, depth, st);
      var inner := CalleeEnv(p, fn, args, keywords, env, bound.bindings);
      var rs := EvalList(p, ReturnsOf(fn.body), inner, depth + 1, bound.st);
      var rest := EvalTargets(p, targets[1..], args, keywords, env, depth, rs.st);
      Fold(UnionAll(rs.lists) + rest.vals, rest.st)
  }
}
