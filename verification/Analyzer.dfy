/** The folder as it runs: an object whose memo of module constants is filled in place while
    its methods recurse and loop.  Each method computes what the function of the same name in
    Folder says and leaves the memo that function threads. */
module Analyzer {
  import opened Options
  import opened PySyntax
  import opened Templates
  import opened Folder

  class Analyzer {
    const p: Program
    var memo: map<Key, set<string>>
    ghost var capped: bool

    /** A new analyzer has folded nothing. */
    constructor (p: Program)
      ensures this.p == p && St() == State(map[], false)
    {
      this.p := p;
      memo := map[];
      capped := false;
    }

    ghost function St(): State
      reads this
    {
      State(memo, capped)
    }

    /** _product: the first concatenations, up to the limit. */
    method MakeProduct(parts: seq<set<string>>) returns (out: set<string>)
      modifies this`capped
      ensures Fold(out, St()) == Product(p, parts, old(St()))
    {
      var combos := Combos(Listed(p, parts));
      out := {};
      var i := 0;
      while i < |combos| && i < MAX_TEMPLATES_PER_EXPR
        invariant 0 <= i <= |combos| && i <= MAX_TEMPLATES_PER_EXPR
        invariant out == set x | x in combos[..i]
      {
        assert combos[..i + 1] == combos[..i] + [combos[i]];
        out := out + {combos[i]};
        i := i + 1;
      }
      capped := capped || |combos| > MAX_TEMPLATES_PER_EXPR;
      if out == {} { out := {HOLE}; }
    }

    method Evaluate(e: Expr, env: Env, depth: nat) returns (vals: set<string>)
      requires depth <= MAX_DEPTH + 1
      modifies this
      ensures Fold(vals, St()) == Folder.Evaluate(p, e, env, depth, old(St()))
      decreases Unmemoised(p, St()), MAX_DEPTH + 1 - depth, 2, 0
    {
      hide Unmemoised, Product, Folder.EvalName, Folder.EvalConstant, Folder.EvalSubscript, Folder.EvalParts;
      hide EvalTargets, EvalList, UnionAll, Targets, SubFields;
      if depth > MAX_DEPTH { return {HOLE}; }
      match e
      case Str(s) => vals := {s};
      case FString(parts) =>
        var lists := EvalParts(parts, env, depth + 1);
        vals := MakeProduct(lists);
      case Name(id) => vals := EvalName(id, env, depth);
      case Attr(alias, attr) =>
        var ref := ResolveAttr(p, env.modl, alias, attr);
        if ref.Some? && ref.value in p.constants { vals := EvalConstant(ref.value); } else { vals := {HOLE}; }
      case Plus(l, r) =>
        var a := Evaluate(l, env, depth + 1);
        var b := Evaluate(r, env, depth + 1);
        vals := MakeProduct([a, b]);
      case Cond(thn, els) =>
        var a := Evaluate(thn, env, depth + 1);
        var b := Evaluate(els, env, depth + 1);
        vals := a + b;
      case Bool(values) => vals := EvalUnion(values, env, depth + 1);
      case Index(base, key) => vals := EvalSubscript(base, key, env, depth);
      case Strip(recv) => vals := Evaluate(recv, env, depth + 1);
      case Format(recv) =>
        var r := Evaluate(recv, env, depth + 1);
        vals := set t | t in r :: SubFields(t);
      case Call(callee, args, keywords) => vals := EvalCall(callee, args, keywords, env, depth);
      case _ => vals := {HOLE};
    }

    /** The loops `for x in xs: out |= evaluate(x)`. */
    method EvalUnion(es: seq<Expr>, env: Env, depth: nat) returns (out: set<string>)
      requires depth <= MAX_DEPTH + 1
      modifies this
      ensures out == UnionAll(EvalList(p, es, env, depth, old(St())).lists)
      ensures St() == EvalList(p, es, env, depth, old(St())).st
      decreases Unmemoised(p, St()), MAX_DEPTH + 1 - depth, 3, 0
    {
      hide Unmemoised, Folder.Evaluate;
      ghost var all := EvalList(p, es, env, depth, St());
      out := {};
      for i := 0 to |es|
        invariant Unmemoised(p, St()) <= Unmemoised(p, old(St()))
        invariant EvalList(p, es[i..], env, depth, St()).st == all.st
        invariant out + UnionAll(EvalList(p, es[i..], env, depth, St()).lists) == UnionAll(all.lists)
      {
        UnfoldEvalList(p, es[i..], env, depth, St());
        assert es[i..][1..] == es[i + 1..];
        var r := Evaluate(es[i], env, depth);
        out := out + r;
      }
    }

    method EvalParts(parts: seq<Part>, env: Env, depth: nat) returns (lists: seq<set<string>>)
      requires depth <= MAX_DEPTH + 1
      modifies this
      ensures FoldList(lists, St()) == Folder.EvalParts(p, parts, env, depth, old(St()))
      decreases Unmemoised(p, St()), MAX_DEPTH + 1 - depth, 3, 0
    {
      hide Unmemoised, Folder.Evaluate, Folder.EvalParts;
      ghost var all := Folder.EvalParts(p, parts, env, depth, St());
      lists := [];
      assert parts[0..] == parts;
      for i := 0 to |parts|
        invariant Unmemoised(p, St()) <= Unmemoised(p, old(St()))
        invariant Folder.EvalParts(p, parts[i..], env, depth, St()).st == all.st
        invariant lists + Folder.EvalParts(p, parts[i..], env, depth, St()).lists == all.lists
      {
        UnfoldParts(p, parts[i..], env, depth, St());
        assert parts[i..][1..] == parts[i + 1..];
        var r := {HOLE};
        match parts[i] {
          case Text(s) => r := {s};
          case Field(e, spec) => if !spec { r := Evaluate(e, env, depth); }
        }
        ghost var rest := Folder.EvalParts(p, parts[i + 1..], env, depth, St());
        assert lists + ([r] + rest.lists) == (lists + [r]) + rest.lists;
        lists := lists + [r];
      }
      NoParts(p, env, depth, St());
    }

    method EvalName(id: string, env: Env, depth: nat) returns (vals: set<string>)
      requires depth <= MAX_DEPTH
      modifies this
      ensures Fold(vals, St()) == Folder.EvalName(p, id, env, depth, old(St()))
      decreases Unmemoised(p, St()), MAX_DEPTH + 1 - depth, 1, 0
    {
      hide Unmemoised;
      if id in env.bindings { return env.bindings[id]; }
      if id in env.stack { return {HOLE}; }
      if env.fn.Some? {
        vals := EvalUnion(AssignmentsTo(env.fn.value.body, id),
                          Env(env.modl, env.fn, env.bindings, env.stack + [id], map[]), depth + 1);
        if vals != {} { return; }
      }
      var ref := Resolve(p, env.modl, id);
      if ref.Some? && ref.value in p.constants { vals := EvalConstant(ref.value); } else { vals := {HOLE}; }
    }

    method EvalConstant(key: Key) returns (vals: set<string>)
      requires key in p.constants
      modifies this
      ensures Fold(vals, St()) == Folder.EvalConstant(p, key, old(St()))
      decreases Unmemoised(p, St()), 0, 0, 0
    {
      hide Unmemoised, Folder.Evaluate;
      if key in memo { return memo[key]; }
      MemoiseOne(p, St(), key, {HOLE}, capped);
      memo := memo[key := {HOLE}];                  // recursion guard
      vals := Evaluate(p.constants[key], Env(key.0, None, map[], [key.1], map[]), 0);
      memo := memo[key := vals];
    }

    method EvalSubscript(base: string, key: Option<string>, env: Env, depth: nat) returns (vals: set<string>)
      requires depth <= MAX_DEPTH
      modifies this
      ensures Fold(vals, St()) == Folder.EvalSubscript(p, base, key, env, depth, old(St()))
      decreases Unmemoised(p, St()), MAX_DEPTH + 1 - depth, 1, 0
    {
      hide Unmemoised, Folder.Evaluate, EvalList;
      var ref := Resolve(p, env.modl, base);
      if ref.None? || ref.value !in p.constants || !p.constants[ref.value].DictDisplay? { return {HOLE}; }
      var entries := p.constants[ref.value].entries;
      var keyEnv := Env(ref.value.0, None, map[], [], map[]);
      if key.Some? {
        for i := 0 to |entries|
          invariant St() == old(St())
          invariant FirstWithKey(entries, key.value) == i + FirstWithKey(entries[i..], key.value)
        {
          if entries[i].0 == key {
            vals := Evaluate(entries[i].1, keyEnv, depth + 1);
            return;
          }
          assert entries[i..][1..] == entries[i + 1..];
        }
      }
      vals := EvalUnion(seq(|entries|, i requires 0 <= i < |entries| => entries[i].1), keyEnv, depth + 1);
      if vals == {} { vals := {HOLE}; }
    }

    method EvalCall(callee: Expr, args: seq<Expr>, keywords: seq<(string, Expr)>, env: Env, depth: nat)
      returns (out: set<string>)
      requires depth <= MAX_DEPTH
      modifies this
      ensures Fold(out, St()) == Folder.Evaluate(p, Call(callee, args, keywords), env, depth, old(St()))
      decreases Unmemoised(p, St()), MAX_DEPTH + 1 - depth, 1, 0
    {
      hide Unmemoised;
      var targets := Targets(p, env, callee);
      if targets == [] || depth > MAX_CALL_DEPTH * 4 { return {HOLE}; }
      ghost var all := EvalTargets(p, targets, args, keywords, env, depth, St());
      assert Folder.Evaluate(p, Call(callee, args, keywords), env, depth, St()) == Fold(OrHole(all.vals), all.st);
      hide Folder.Evaluate;
      out := {};
      for i := 0 to |targets|
        invariant Unmemoised(p, St()) <= Unmemoised(p, old(St()))
        invariant EvalTargets(p, targets[i..], args, keywords, env, depth, St()).st == all.st
        invariant out + EvalTargets(p, targets[i..], args, keywords, env, depth, St()).vals == all.vals
      {
        UnfoldEvalTargets(p, targets[i..], args, keywords, env, depth, St());
        assert targets[i..][1..] == targets[i + 1..];
        if targets[i].name !in env.stack {
          var inner := BindArguments(targets[i], args, keywords, env, depth);
          var r := EvalUnion(ReturnsOf(targets[i].body), inner, depth + 1);
          out := out + r;
        }
      }
      if out == {} { out := {HOLE}; }
    }

    /** `bind`: folds the arguments in the caller's environment, then the missing defaults in
        the callee's, and notes the parameters that receive a function. */
    method BindArguments(fn: Fn, args: seq<Expr>, keywords: seq<(string, Expr)>, caller: Env, depth: nat)
      returns (env: Env)
      requires depth <= MAX_DEPTH
      modifies this
      ensures var bound := BindCall(p, fn, args, keywords, caller, depth, old(St()));
        St() == bound.st && env == CalleeEnv(p, fn, args, keywords, caller, bound.bindings)
      decreases Unmemoised(p, St()), MAX_DEPTH + 1 - depth, 0, 0
    {
      hide Unmemoised, EvalPairs, Callables, PairNames;
      ghost var n := if |args| <= |fn.params| then |args| else |fn.params|;
      ghost var pairs := CallPairs(fn, args, keywords);
      var bindings, callables := BindPositional(fn, args, keywords, caller, depth);
      assert pairs[n..] == NamedPairs(fn, keywords);
      bindings, callables := BindKeywords(fn, keywords, caller, depth, bindings, callables);
      assert bindings.Keys == PairNames(pairs) by {
        NamesOfConcat(pairs[..n], NamedPairs(fn, keywords));
        assert pairs == pairs[..n] + NamedPairs(fn, keywords);
      }
      bindings := BindDefaults(fn, caller, depth, bindings);
      env := Env(fn.modl, Some(fn), bindings, caller.stack + [fn.name], callables);
    }

    /** The positional loop; surplus arguments are ignored. */
    method BindPositional(fn: Fn, args: seq<Expr>, ghost keywords: seq<(string, Expr)>, caller: Env, depth: nat)
      returns (bindings: map<string, set<string>>, callables: map<string, Key>)
      requires depth <= MAX_DEPTH
      modifies this
      ensures Unmemoised(p, St()) <= Unmemoised(p, old(St()))
      ensures var pairs := CallPairs(fn, args, keywords);
        var n := if |args| <= |fn.params| then |args| else |fn.params|;
        && EvalPairs(p, pairs[n..], caller, depth + 1, bindings, St())
          == EvalPairs(p, pairs, caller, depth + 1, map[], old(St()))
        && callables + Callables(p, caller, pairs[n..]) == Callables(p, caller, pairs)
        && bindings.Keys == PairNames(pairs[..n])
      decreases Unmemoised(p, St()), MAX_DEPTH - depth, 4, 0
    {
      hide Unmemoised, EvalPairs, Callables, PairNames;
      ghost var pairs := CallPairs(fn, args, keywords);
      ghost var given := EvalPairs(p, pairs, caller, depth + 1, map[], St());
      bindings, callables := map[], map[];
      assert pairs[0..] == pairs;
      assert pairs[..0] == [];
      NoPairs(p, caller, depth + 1, map[], St());
      var i := 0;
      while i < |args|
        invariant 0 <= i <= |args|
        invariant Unmemoised(p, St()) <= Unmemoised(p, old(St()))
        invariant var k := if i <= |fn.params| then i else |fn.params|;
          && EvalPairs(p, pairs[k..], caller, depth + 1, bindings, St()) == given
          && callables + Callables(p, caller, pairs[k..]) == Callables(p, caller, pairs)
          && bindings.Keys == PairNames(pairs[..k])
      {
        if i < |fn.params| {
          assert pairs[i] == (fn.params[i], args[i]);
          UnfoldPairs(p, pairs, i, caller, depth + 1, bindings, St());
          callables := NoteCallable(fn.params[i], args[i], caller, callables, pairs[i..]);
          var r := Evaluate(args[i], caller, depth + 1);
          bindings := bindings[fn.params[i] := r];
        }
        i := i + 1;
      }
    }

    /** The keyword loop; a keyword that names no parameter is ignored. */
    method BindKeywords(fn: Fn, keywords: seq<(string, Expr)>, caller: Env, depth: nat,
                        given: map<string, set<string>>, noted: map<string, Key>)
      returns (bindings: map<string, set<string>>, callables: map<string, Key>)
      requires depth <= MAX_DEPTH
      modifies this
      ensures FoldMap(bindings, St())
        == EvalPairs(p, NamedPairs(fn, keywords), caller, depth + 1, given, old(St()))
      ensures callables == noted + Callables(p, caller, NamedPairs(fn, keywords))
      ensures bindings.Keys == given.Keys + PairNames(NamedPairs(fn, keywords))
      decreases Unmemoised(p, St()), MAX_DEPTH - depth, 4, 0
    {
      hide Unmemoised, EvalPairs, Callables, PairNames, NamedPairs, Folder.Evaluate;
      ghost var all := NamedPairs(fn, keywords);
      bindings, callables := given, noted;
      assert keywords[0..] == keywords;
      var j := 0;
      while j < |keywords|
        invariant 0 <= j <= |keywords|
        invariant Unmemoised(p, St()) <= Unmemoised(p, old(St()))
        invariant EvalPairs(p, NamedPairs(fn, keywords[j..]), caller, depth + 1, bindings, St())
          == EvalPairs(p, all, caller, depth + 1, given, old(St()))
        invariant callables + Callables(p, caller, NamedPairs(fn, keywords[j..])) == noted + Callables(p, caller, all)
        invariant bindings.Keys + PairNames(NamedPairs(fn, keywords[j..])) == given.Keys + PairNames(all)
      {
        NextKeyword(fn, keywords, j);
        if IsParam(fn, keywords[j].0) {
          ghost var left := NamedPairs(fn, keywords[j..]);
          UnfoldPairs(p, left, 0, caller, depth + 1, bindings, St());
          PairNamesCons(left);
          callables := NoteCallable(keywords[j].0, keywords[j].1, caller, callables, left);
          var r := Evaluate(keywords[j].1, caller, depth + 1);
          bindings := bindings[keywords[j].0 := r];
        }
        j := j + 1;
      }
      assert keywords[|keywords|..] == [];
      NoPairs(p, caller, depth + 1, bindings, St());
    }

    /** The defaults loop; default names are distinct, so only the bound parameters are skipped. */
    method BindDefaults(fn: Fn, caller: Env, depth: nat, given: map<string, set<string>>)
      returns (bindings: map<string, set<string>>)
      requires depth <= MAX_DEPTH
      modifies this
      ensures FoldMap(bindings, St())
        == EvalPairs(p, DefaultsLeft(fn.defaults, given.Keys),
                     Env(fn.modl, Some(fn), map[], caller.stack + [fn.name], map[]), depth + 1, given, old(St()))
      decreases Unmemoised(p, St()), MAX_DEPTH - depth, 4, 0
    {
      hide Unmemoised, EvalPairs, DefaultsLeft, Folder.Evaluate;
      var inner := Env(fn.modl, Some(fn), map[], caller.stack + [fn.name], map[]);
      bindings := given;
      assert fn.defaults[0..] == fn.defaults;
      var j := 0;
      while j < |fn.defaults|
        invariant 0 <= j <= |fn.defaults|
        invariant Unmemoised(p, St()) <= Unmemoised(p, old(St()))
        invariant EvalPairs(p, DefaultsLeft(fn.defaults[j..], given.Keys), inner, depth + 1, bindings, St())
          == EvalPairs(p, DefaultsLeft(fn.defaults, given.Keys), inner, depth + 1, given, old(St()))
      {
        NextDefault(fn.defaults, given.Keys, j);
        if fn.defaults[j].0 !in given {
          UnfoldPairs(p, DefaultsLeft(fn.defaults[j..], given.Keys), 0, inner, depth + 1, bindings, St());
          var r := Evaluate(fn.defaults[j].1, inner, depth + 1);
          bindings := bindings[fn.defaults[j].0 := r];
        }
        j := j + 1;
      }
      assert fn.defaults[|fn.defaults|..] == [];
      NoPairs(p, inner, depth + 1, bindings, St());
    }

    /** note_callable: a parameter bound to a package function, or to a parameter that is. */
    method NoteCallable(param: string, value: Expr, caller: Env, callables: map<string, Key>,
                        ghost pairs: seq<(string, Expr)>) returns (noted: map<string, Key>)
      requires pairs != [] && pairs[0] == (param, value)
      ensures noted + Callables(p, caller, pairs[1..]) == callables + Callables(p, caller, pairs)
    {
      var direct := FunctionFor(p, caller.modl, value);
      if direct.Some? {
        noted := callables[param := direct.value];
      } else if value.Name? && value.id in caller.callables {
        noted := callables[param := caller.callables[value.id]];
      } else {
        noted := callables;
      }
    }
  }

  lemma UnfoldEvalList(p: Program, es: seq<Expr>, env: Env, depth: nat, st: State)
    requires depth <= MAX_DEPTH + 1 && es != []
    ensures var r := Folder.Evaluate(p, es[0], env, depth, st);
      var rest := EvalList(p, es[1..], env, depth, r.st);
      && EvalList(p, es, env, depth, st).st == rest.st
      && UnionAll(EvalList(p, es, env, depth, st).lists) == r.vals + UnionAll(rest.lists)
  {
    hide Folder.Evaluate;
    var r := Folder.Evaluate(p, es[0], env, depth, st);
    var rest := EvalList(p, es[1..], env, depth, r.st);
    assert ([r.vals] + rest.lists)[1..] == rest.lists;
  }

  lemma UnfoldEvalTargets(p: Program, targets: seq<Fn>, args: seq<Expr>, keywords: seq<(string, Expr)>,
                          env: Env, depth: nat, st: State)
    requires depth <= MAX_DEPTH && targets != []
    ensures if targets[0].name in env.stack
      then EvalTargets(p, targets, args, keywords, env, depth, st)
        == EvalTargets(p, targets[1..], args, keywords, env, depth, st)
      else
        var bound := BindCall(p, targets[0], args, keywords, env, depth, st);
        var inner := CalleeEnv(p, targets[0], args, keywords, env, bound.bindings);
        var rs := EvalList(p, ReturnsOf(targets[0].body), inner, depth + 1, bound.st);
        var rest := EvalTargets(p, targets[1..], args, keywords, env, depth, rs.st);
        EvalTargets(p, targets, args, keywords, env, depth, st) == Fold(UnionAll(rs.lists) + rest.vals, rest.st)
  {
    hide Folder.Evaluate, EvalList, BindCall, CalleeEnv, Unmemoised;
  }

  lemma UnfoldParts(p: Program, parts: seq<Part>, env: Env, depth: nat, st: State)
    requires depth <= MAX_DEPTH + 1 && parts != []
    ensures var r := match parts[0]
        case Text(s) => Fold({s}, st)
        case Field(e, spec) => if spec then Fold({HOLE}, st) else Folder.Evaluate(p, e, env, depth, st);
      var rest := Folder.EvalParts(p, parts[1..], env, depth, r.st);
      Folder.EvalParts(p, parts, env, depth, st) == FoldList([r.vals] + rest.lists, rest.st)
  {
    hide Folder.Evaluate, Unmemoised;
  }

  lemma NoParts(p: Program, env: Env, depth: nat, st: State)
    requires depth <= MAX_DEPTH + 1
    ensures Folder.EvalParts(p, [], env, depth, st) == FoldList([], st)
  {}

  lemma NoPairs(p: Program, env: Env, depth: nat, bindings: map<string, set<string>>, st: State)
    requires depth <= MAX_DEPTH + 1
    ensures EvalPairs(p, [], env, depth, bindings, st) == FoldMap(bindings, st)
    ensures Callables(p, env, []) == map[] && PairNames([]) == {} && forall b :: DefaultsLeft([], b) == []
  {}

  lemma NextKeyword(fn: Fn, keywords: seq<(string, Expr)>, j: nat)
    requires j < |keywords|
    ensures var left, rest := NamedPairs(fn, keywords[j..]), NamedPairs(fn, keywords[j + 1..]);
      if IsParam(fn, keywords[j].0) then left != [] && left[0] == keywords[j] && left[1..] == rest && left[0..] == left
      else left == rest
  {
    assert keywords[j..][1..] == keywords[j + 1..];
  }

  lemma NextDefault(defaults: seq<(string, Expr)>, bound: set<string>, j: nat)
    requires j < |defaults|
    ensures var left, rest := DefaultsLeft(defaults[j..], bound), DefaultsLeft(defaults[j + 1..], bound);
      if defaults[j].0 in bound then left == rest
      else left != [] && left[0] == defaults[j] && left[1..] == rest && left[0..] == left
  {
    assert defaults[j..][1..] == defaults[j + 1..];
  }

  lemma NamesOfConcat(a: seq<(string, Expr)>, b: seq<(string, Expr)>)
    ensures PairNames(a + b) == PairNames(a) + PairNames(b)
  {
    forall x | x in PairNames(a) + PairNames(b) ensures x in PairNames(a + b) {
      if x in PairNames(a) {
        var i :| 0 <= i < |a| && a[i].0 == x;
        assert (a + b)[i].0 == x;
      } else {
        var i :| 0 <= i < |b| && b[i].0 == x;
        assert (a + b)[|a| + i].0 == x;
      }
    }
  }

  lemma UnfoldPairs(p: Program, pairs: seq<(string, Expr)>, k: nat, env: Env, depth: nat,
                    bindings: map<string, set<string>>, st: State)
    requires depth <= MAX_DEPTH + 1 && k < |pairs|
    ensures var r := Folder.Evaluate(p, pairs[k].1, env, depth, st);
      EvalPairs(p, pairs[k..], env, depth, bindings, st)
        == EvalPairs(p, pairs[k + 1..], env, depth, bindings[pairs[k].0 := r.vals], r.st)
    ensures pairs[k..][1..] == pairs[k + 1..]
    ensures PairNames(pairs[..k + 1]) == PairNames(pairs[..k]) + {pairs[k].0}
  {
    hide Folder.Evaluate, Unmemoised;
    assert pairs[k..][1..] == pairs[k + 1..];
    forall x | x in PairNames(pairs[..k + 1]) ensures x in PairNames(pairs[..k]) + {pairs[k].0} {
      var i :| 0 <= i < |pairs[..k + 1]| && pairs[..k + 1][i].0 == x;
      if i < k { assert pairs[..k][i].0 == x; }
    }
    forall x | x in PairNames(pairs[..k]) + {pairs[k].0} ensures x in PairNames(pairs[..k + 1]) {
      if x == pairs[k].0 {
        assert pairs[..k + 1][k].0 == x;
      } else {
        var i :| 0 <= i < |pairs[..k]| && pairs[..k][i].0 == x;
        assert pairs[..k + 1][i].0 == x;
      }
    }
  }
}
