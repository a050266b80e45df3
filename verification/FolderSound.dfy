/** Soundness of the constant folder: a value an expression takes in any execution is an
    instance of one of the templates it folds to. */
module FolderSound {
  import opened Options
  import opened PySyntax
  import opened PySemantics
  import opened Provenance
  import opened Templates
  import opened Folder

  // -- the fragment ----------------------------------------------------------------------------

  /** What an expression may rest on: a module constant or helper, the entries of a module-level
      dictionary, or a local variable of a function. */
  datatype Item = Definition(key: Key) | Entries(key: Key) | Variable(fn: Fn, id: string)

  /** items: what may be rested on; solid: those of them that never yield the None of a helper that
      fell off its end. */
  datatype Scope = Scope(items: set<Item>, solid: set<Item>)

  /** Where an expression stands. */
  datatype Place = Place(modl: string, fn: Option<Fn>)

  predicate LocalAt(at: Place, x: string) {
    at.fn.Some? && IsLocal(at.fn.value, x)
  }

  predicate InScope(p: Program, sc: Scope, ref: Option<Key>) {
    ref.Some? && (ref.value in p.constants || ref.value in p.functions) ==> Definition(ref.value) in sc.items
  }

  /** A local the folder reads faithfully: plain, and hiding no function of the package. */
  predicate ReadableLocal(p: Program, sc: Scope, fn: Fn, modl: string, x: string) {
    && Plain(fn, x) && FunctionFor(p, modl, Name(x)).None?
    && (IsParam(fn, x) || Variable(fn, x) in sc.items)
  }

  /** The call certainly leaves the package: it names no function of it and goes through no parameter. */
  predicate CallsOut(p: Program, at: Place, callee: Expr) {
    && FunctionFor(p, at.modl, callee).None?
    && !(callee.Name? && at.fn.Some? && IsParam(at.fn.value, callee.id))
  }

  /** No strip or format call, and what the expression rests on is in scope; what an f-string formats
      and what a helper is passed is solid. */
  predicate Foldable(p: Program, sc: Scope, at: Place, e: Expr)
    decreases e
  {
    match e
    case FString(parts) =>
      forall i :: 0 <= i < |parts| && parts[i].Field? && !parts[i].spec ==>
        Foldable(p, sc, at, parts[i].expr) && Solid(p, sc, at, parts[i].expr)
    case Plus(l, r) => Foldable(p, sc, at, l) && Foldable(p, sc, at, r)
    case Cond(a, b) => Foldable(p, sc, at, a) && Foldable(p, sc, at, b)
    case Bool(values) => forall i :: 0 <= i < |values| ==> Foldable(p, sc, at, values[i])
    case Name(id) =>
      && (LocalAt(at, id) ==> ReadableLocal(p, sc, at.fn.value, at.modl, id))
      && InScope(p, sc, Resolve(p, at.modl, id))
    case Attr(alias, attr) =>
      && (LocalAt(at, alias) ==> (at.modl, alias) !in p.aliases)
      && InScope(p, sc, ResolveAttr(p, at.modl, alias, attr))
    case Index(base, key) =>
      var ref := Resolve(p, at.modl, base);
      IsDict(p, ref) ==> !LocalAt(at, base) && Entries(ref.value) in sc.items
    case Call(f, args, keywords) =>
      CallsOut(p, at, f)
      || (&& Foldable(p, sc, at, f)
          && (forall i :: 0 <= i < |args| ==> Foldable(p, sc, at, args[i]) && Solid(p, sc, at, args[i]))
          && (forall i :: 0 <= i < |keywords| ==>
                Foldable(p, sc, at, keywords[i].1) && Solid(p, sc, at, keywords[i].1)))
    case Strip(_) => false
    case Format(_) => false
    case _ => true
  }

  /** The expression yields no None of a helper that fell off its end, and no function that may. */
  predicate Solid(p: Program, sc: Scope, at: Place, e: Expr)
    decreases e
  {
    match e
    case Plus(l, r) => Solid(p, sc, at, l) && Solid(p, sc, at, r)
    case Cond(a, b) => Solid(p, sc, at, a) && Solid(p, sc, at, b)
    case Bool(values) => forall i :: 0 <= i < |values| ==> Solid(p, sc, at, values[i])
    case Name(id) =>
      if LocalAt(at, id) then IsParam(at.fn.value, id) || Variable(at.fn.value, id) in sc.solid
      else SolidFunction(p, sc, at, e)
    case Attr(_, _) => SolidFunction(p, sc, at, e)
    case Call(f, _, _) => SolidFunction(p, sc, at, f)
    case _ => true
  }

  /** Should the expression name a function, it is a solid one. */
  predicate SolidFunction(p: Program, sc: Scope, at: Place, e: Expr) {
    var ref := FunctionFor(p, at.modl, e);
    ref.Some? ==> Definition(ref.value) in sc.solid
  }

  /** The expression mentions no local of fn (a default must not: Python evaluates it outside). */
  predicate Avoids(fn: Fn, e: Expr)
    decreases e
  {
    match e
    case Name(id) => !IsLocal(fn, id)
    case Attr(alias, _) => !IsLocal(fn, alias)
    case Index(base, _) => !IsLocal(fn, base)
    case FString(parts) => forall i :: 0 <= i < |parts| ==> parts[i].Field? ==> Avoids(fn, parts[i].expr)
    case Plus(l, r) => Avoids(fn, l) && Avoids(fn, r)
    case Cond(a, b) => Avoids(fn, a) && Avoids(fn, b)
    case Bool(values) => forall i :: 0 <= i < |values| ==> Avoids(fn, values[i])
    case Display(elts) => forall i :: 0 <= i < |elts| ==> Avoids(fn, elts[i])
    case Call(f, args, keywords) =>
      && Avoids(fn, f)
      && (forall i :: 0 <= i < |args| ==> Avoids(fn, args[i]))
      && (forall i :: 0 <= i < |keywords| ==> Avoids(fn, keywords[i].1))
    case _ => true
  }

  predicate Distinct(pairs: seq<(string, Expr)>) {
    forall i, j :: 0 <= i < j < |pairs| ==> pairs[i].0 != pairs[j].0
  }

  predicate Inside(p: Program, sc: Scope, fn: Fn, e: Expr) {
    Foldable(p, sc, Place(fn.modl, Some(fn)), e)
  }

  predicate SolidInside(p: Program, sc: Scope, fn: Fn, e: Expr) {
    Solid(p, sc, Place(fn.modl, Some(fn)), e)
  }

  /** A constant or dictionary entry of a module. */
  predicate AtModule(p: Program, sc: Scope, modl: string, e: Expr) {
    Foldable(p, sc, Place(modl, None), e) && Solid(p, sc, Place(modl, None), e)
  }

  /** A helper the folder can expand: its returns and defaults are foldable. */
  predicate FoldableFn(p: Program, sc: Scope, fn: Fn) {
    && (forall e | e in ReturnsOf(fn.body) :: Inside(p, sc, fn, e))
    && (forall d | d in fn.defaults ::
          IsParam(fn, d.0) && Inside(p, sc, fn, d.1) && SolidInside(p, sc, fn, d.1) && Avoids(fn, d.1))
    && Distinct(fn.defaults)
  }

  /** Every path of the helper returns a value, and a solid one. */
  predicate SolidFn(p: Program, sc: Scope, fn: Fn) {
    !MayReturnNone(fn) && forall e | e in ReturnsOf(fn.body) :: SolidInside(p, sc, fn, e)
  }

  ghost predicate SameElements(listed: seq<string>, s: set<string>) {
    forall x :: x in listed <==> x in s
  }

  /** The order in which a set is iterated lists its elements. */
  ghost predicate ListsSets(p: Program) {
    forall s: set<string> :: SameElements(p.order(s), s)
  }

  predicate GoodDefinition(p: Program, sc: Scope, key: Key) {
    && (key in p.constants ==> key !in p.functions && AtModule(p, sc, key.0, p.constants[key]))
    && (key in p.functions ==>
          && |p.functions[key]| == 1 && FoldableFn(p, sc, p.functions[key][0])
          && (Definition(key) in sc.solid ==> SolidFn(p, sc, p.functions[key][0])))
  }

  /** A dictionary with literal, distinct keys. */
  predicate GoodEntries(p: Program, sc: Scope, key: Key) {
    IsDict(p, Some(key)) ==>
      var entries := p.constants[key].entries;
      && (forall i :: 0 <= i < |entries| ==> entries[i].0.Some? && AtModule(p, sc, key.0, entries[i].1))
      && (forall i, j :: 0 <= i < j < |entries| ==> entries[i].0 != entries[j].0)
  }

  ghost predicate GoodVariable(p: Program, sc: Scope, fn: Fn, x: string) {
    forall e | e in AssignmentsTo(fn.body, x) ::
      Inside(p, sc, fn, e) && (Variable(fn, x) in sc.solid ==> SolidInside(p, sc, fn, e))
  }

  /** What the items rest on is in scope too; nothing is asked of the rest of the package. */
  ghost predicate GoodScope(p: Program, sc: Scope) {
    && ListsSets(p)
    && sc.solid <= sc.items
    && forall item | item in sc.items ::
         match item
         case Definition(key) => GoodDefinition(p, sc, key)
         case Entries(key) => GoodEntries(p, sc, key)
         case Variable(fn, x) => GoodVariable(p, sc, fn, x)
  }

  // -- covering --------------------------------------------------------------------------------

  /** Some template denotes the value; a value that is not a string may print as anything, so
      only a template every string is an instance of denotes it. */
  ghost predicate Covers(vals: set<string>, v: Val) {
    if v.VStr? then exists t :: t in vals && Instance(t, v.s)
    else exists t :: t in vals && Universal(t)
  }

  /** fr is one of the frames env stands for. */
  ghost predicate Admits(p: Program, env: Env, fr: Frame) {
    && fr.modl == env.modl && fr.fn == env.fn
    && (fr.fn.Some? ==> forall x | x in fr.vars && IsParam(fr.fn.value, x) ::
          if x in env.bindings then Covers(env.bindings[x], fr.vars[x]) else !NamesConstant(p, env.modl, x))
    && (forall x | x in env.callables :: x in fr.vars && fr.vars[x] == VFun(env.callables[x]))
  }

  predicate NamesConstant(p: Program, modl: string, x: string) {
    var ref := Resolve(p, modl, x);
    ref.Some? && ref.value in p.constants
  }

  ghost predicate GoodEnv(p: Program, sc: Scope, env: Env) {
    && (env.fn.Some? ==> env.modl == env.fn.value.modl)
    && (forall x | x in env.bindings || x in env.callables :: env.fn.Some? && IsParam(env.fn.value, x))
    && (forall x | x in env.callables && env.callables[x] in p.functions :: Definition(env.callables[x]) in sc.solid)
  }

  function PlaceOf(env: Env): Place {
    Place(env.modl, env.fn)
  }

  /** Strings are covered and, if solid, all values. */
  ghost predicate Fits(solid: bool, vals: set<string>, v: Val) {
    v.VStr? || solid ==> Covers(vals, v)
  }

  /** The folds fit every value e takes in every frame env stands for. */
  ghost predicate CoversAll(p: Program, sc: Scope, env: Env, e: Expr, vals: set<string>) {
    forall fr, u :: Admits(p, env, fr) && Value(p, Collect, fr, e, u).Some?
      ==> Fits(Solid(p, sc, PlaceOf(env), e), vals, Value(p, Collect, fr, e, u).value)
  }

  ghost predicate ConstantCovered(p: Program, key: Key, vals: set<string>)
    requires key in p.constants
  {
    forall u :: Value(p, Collect, ModuleFrame(key.0), p.constants[key], u).Some?
      ==> Covers(vals, Value(p, Collect, ModuleFrame(key.0), p.constants[key], u).value)
  }

  /** Every memoised fold covers its constant, the guards of unfinished ones included. */
  ghost predicate MemoSound(p: Program, st: State) {
    forall key | key in st.memo && key in p.constants :: ConstantCovered(p, key, st.memo[key])
  }

  lemma HoleCovers(v: Val)
    ensures Covers({HOLE}, v)
  {
    HoleIsUniversal();
    assert HOLE in {HOLE};
  }

  lemma HoleCoversAll(p: Program, sc: Scope, env: Env, e: Expr)
    ensures CoversAll(p, sc, env, e, {HOLE})
  {
    forall fr, u | Admits(p, env, fr) && Value(p, Collect, fr, e, u).Some?
      ensures Fits(Solid(p, sc, PlaceOf(env), e), {HOLE}, Value(p, Collect, fr, e, u).value)
    {
      HoleCovers(Value(p, Collect, fr, e, u).value);
    }
  }

  lemma FitsMore(solid: bool, less: set<string>, more: set<string>, v: Val)
    requires Fits(solid, less, v) && less <= more
    ensures Fits(solid, more, v)
  {
    if v.VStr? || solid { CoversMore(less, more, v); }
  }

  lemma CoversMore(less: set<string>, more: set<string>, v: Val)
    requires Covers(less, v) && less <= more
    ensures Covers(more, v)
  {}

  lemma {:induction false} UnionAllHas(lists: seq<set<string>>, i: nat)
    requires i < |lists|
    ensures lists[i] <= UnionAll(lists)
  {
    if i > 0 { UnionAllHas(lists[1..], i - 1); }
  }

  // -- products --------------------------------------------------------------------------------

  /** s is the concatenation of one instance per set of templates. */
  ghost predicate TextCovered(lists: seq<set<string>>, s: string) {
    if lists == [] then s == ""
    else exists t, k :: t in lists[0] && 0 <= k <= |s| && Instance(t, s[..k]) && TextCovered(lists[1..], s[k..])
  }

  lemma {:induction false} CrossHas(xs: seq<string>, rest: seq<string>, x: string, r: string)
    requires x in xs && r in rest
    ensures x + r in Cross(xs, rest)
  {
    if xs[0] == x {
      var i :| 0 <= i < |rest| && rest[i] == r;
      assert Prefixed(x, rest)[i] == x + r;
    } else {
      CrossHas(xs[1..], rest, x, r);
    }
  }

  lemma {:induction false} CombosCover(p: Program, lists: seq<set<string>>, s: string) returns (c: string)
    requires ListsSets(p) && TextCovered(lists, s)
    ensures c in Combos(Listed(p, lists)) && Instance(c, s)
  {
    if lists == [] {
      c := "";
    } else {
      var t, k :| t in lists[0] && 0 <= k <= |s| && Instance(t, s[..k]) && TextCovered(lists[1..], s[k..]);
      assert t in p.order(lists[0]) by { assert SameElements(p.order(lists[0]), lists[0]); }
      hide ListsSets, TextCovered;
      var rest := CombosCover(p, lists[1..], s[k..]);
      c := t + rest;
      assert Instance(c, s) by {
        ConcatInstance(t, s[..k], rest, s[k..]);
        assert s[..k] + s[k..] == s;
      }
      assert Listed(p, lists)[1..] == Listed(p, lists[1..]);
      CrossHas(p.order(lists[0]), Combos(Listed(p, lists[1..])), t, rest);
    }
  }

  lemma ProductCoversText(p: Program, lists: seq<set<string>>, st: State, s: string)
    requires ListsSets(p) && TextCovered(lists, s) && !Product(p, lists, st).st.capped
    ensures Covers(Product(p, lists, st).vals, VStr(s))
  {
    var c := CombosCover(p, lists, s);
    assert c in Product(p, lists, st).vals;
  }

  lemma PairTextCovered(a: set<string>, b: set<string>, s1: string, s2: string)
    requires Covers(a, VStr(s1)) && Covers(b, VStr(s2))
    ensures TextCovered([a, b], s1 + s2)
  {
    var s := s1 + s2;
    var t1 :| t1 in a && Instance(t1, s1);
    var t2 :| t2 in b && Instance(t2, s2);
    assert s[..|s1|] == s1 && s[|s1|..] == s2;
    assert s2[..|s2|] == s2 && s2[|s2|..] == "";
    assert [b][1..] == [] && [a, b][1..] == [b];
    assert TextCovered([], s2[|s2|..]);
    assert t2 in [b][0] && Instance(t2, s2[..|s2|]) && TextCovered([b][1..], s2[|s2|..]);
    assert TextCovered([b], s2);
    assert t1 in [a, b][0] && Instance(t1, s[..|s1|]) && TextCovered([a, b][1..], s[|s1|..]);
  }

  lemma PairUniversalCovered(p: Program, a: set<string>, b: set<string>, st: State, v: Val)
    requires ListsSets(p) && !v.VStr? && Covers(a, v) && Covers(b, v) && !Product(p, [a, b], st).st.capped
    ensures Covers(Product(p, [a, b], st).vals, v)
  {
    var t1 :| t1 in a && Universal(t1);
    var t2 :| t2 in b && Universal(t2);
    var listed := Listed(p, [a, b]);
    assert listed == [p.order(a), p.order(b)];
    assert listed[1..] == [p.order(b)] && listed[1..][1..] == [];
    CrossHas(p.order(b), Combos([]), t2, "");
    CrossHas(p.order(a), Combos(listed[1..]), t1, t2 + "");
    assert t2 + "" == t2;
    ConcatUniversal(t1, t2);
    assert t1 + t2 in Product(p, [a, b], st).vals;
  }

  // -- defaults ---------------------------------------------------------------------------------

  /** An expression that mentions no local means the same inside the function and outside. */
  lemma {:induction false} OutsideValue(p: Program, fn: Fn, e: Expr, u: Tr)
    requires Avoids(fn, e)
    ensures Value(p, Collect, Frame(fn.modl, Some(fn), map[]), e, u) == Value(p, Collect, ModuleFrame(fn.modl), e, u)
    decreases u, 1
  {
    match e
    case FString(parts) => OutsideParts(p, fn, parts, u.kids);
    case Plus(l, r) =>
      if |u.kids| >= 2 {
        OutsideValue(p, fn, l, u.kids[0]);
        OutsideValue(p, fn, r, u.kids[1]);
      }
    case Cond(a, b) => if |u.kids| >= 1 { OutsideValue(p, fn, if u.pick == 0 then a else b, u.kids[0]); }
    case Bool(values) => if |u.kids| >= 1 && u.pick < |values| { OutsideValue(p, fn, values[u.pick], u.kids[0]); }
    case Display(elts) => OutsideValues(p, fn, elts, u.kids);
    case Call(f, args, keywords) => OutsideCall(p, fn, f, args, keywords, u);
    case _ =>
  }

  lemma {:induction false} OutsideCall(p: Program, fn: Fn, f: Expr, args: seq<Expr>, keywords: seq<(string, Expr)>, u: Tr)
    requires Avoids(fn, Call(f, args, keywords))
    ensures Value(p, Collect, Frame(fn.modl, Some(fn), map[]), Call(f, args, keywords), u)
         == Value(p, Collect, ModuleFrame(fn.modl), Call(f, args, keywords), u)
    decreases u, 0
  {
    var inside, outside := Frame(fn.modl, Some(fn), map[]), ModuleFrame(fn.modl);
    assert Callee(p, inside, f) == Callee(p, outside, f);
    if |u.kids| >= 3 && Callee(p, inside, f).Some? {
      var callee := Callee(p, inside, f).value;
      var pairs := CallPairs(callee, args, keywords);
      if AcceptedCall(callee, args, keywords) {
        forall i | 0 <= i < |pairs| ensures Avoids(fn, pairs[i].1) {
          AvoidsPair(fn, callee, args, keywords, i);
        }
        hide CallPairs, AcceptedCall, Avoids;
        OutsidePairs(p, fn, pairs, u.kids[0].kids);
      }
    }
  }

  lemma AvoidsPair(fn: Fn, callee: Fn, args: seq<Expr>, keywords: seq<(string, Expr)>, i: nat)
    requires forall k :: 0 <= k < |args| ==> Avoids(fn, args[k])
    requires forall k :: 0 <= k < |keywords| ==> Avoids(fn, keywords[k].1)
    requires i < |CallPairs(callee, args, keywords)|
    ensures Avoids(fn, CallPairs(callee, args, keywords)[i].1)
  {
    var n := if |args| <= |callee.params| then |args| else |callee.params|;
    if i >= n {
      var pair := NamedPairs(callee, keywords)[i - n];
      assert pair in keywords;
      var k :| 0 <= k < |keywords| && keywords[k] == pair;
      assert CallPairs(callee, args, keywords)[i] == pair;
    }
  }

  lemma {:induction false} OutsideParts(p: Program, fn: Fn, parts: seq<Part>, us: seq<Tr>)
    requires forall i :: 0 <= i < |parts| ==> parts[i].Field? ==> Avoids(fn, parts[i].expr)
    ensures PartsText(p, Collect, Frame(fn.modl, Some(fn), map[]), parts, us)
         == PartsText(p, Collect, ModuleFrame(fn.modl), parts, us)
    decreases us
  {
    if parts != [] && us != [] {
      if parts[0].Field? && !parts[0].spec && |us[0].kids| > 0 {
        OutsideValue(p, fn, parts[0].expr, us[0].kids[0]);
      }
      OutsideParts(p, fn, parts[1..], us[1..]);
    }
  }

  lemma {:induction false} OutsideValues(p: Program, fn: Fn, es: seq<Expr>, us: seq<Tr>)
    requires forall i :: 0 <= i < |es| ==> Avoids(fn, es[i])
    ensures Values(p, Collect, Frame(fn.modl, Some(fn), map[]), es, us) == Values(p, Collect, ModuleFrame(fn.modl), es, us)
    decreases us
  {
    if es != [] && us != [] {
      OutsideValue(p, fn, es[0], us[0]);
      OutsideValues(p, fn, es[1..], us[1..]);
    }
  }

  lemma {:induction false} OutsidePairs(p: Program, fn: Fn, pairs: seq<(string, Expr)>, us: seq<Tr>)
    requires forall i :: 0 <= i < |pairs| ==> Avoids(fn, pairs[i].1)
    ensures PairValues(p, Collect, Frame(fn.modl, Some(fn), map[]), pairs, us)
         == PairValues(p, Collect, ModuleFrame(fn.modl), pairs, us)
    decreases us
  {
    if pairs != [] && us != [] {
      OutsideValue(p, fn, pairs[0].1, us[0]);
      OutsidePairs(p, fn, pairs[1..], us[1..]);
    }
  }

  // -- the induction ----------------------------------------------------------------------------

  lemma {:induction false} Sound(p: Program, sc: Scope, e: Expr, env: Env, depth: nat, st: State)
    requires GoodScope(p, sc) && Foldable(p, sc, PlaceOf(env), e)
    requires GoodEnv(p, sc, env) && MemoSound(p, st)
    requires depth <= MAX_DEPTH + 1 && !Evaluate(p, e, env, depth, st).st.capped
    ensures MemoSound(p, Evaluate(p, e, env, depth, st).st)
    ensures CoversAll(p, sc, env, e, Evaluate(p, e, env, depth, st).vals)
    decreases Unmemoised(p, st), MAX_DEPTH + 1 - depth, 2, 0
  {
    hide Unmemoised;
    HoleCoversAll(p, sc, env, e);
    if depth <= MAX_DEPTH {
      match e
      case Str(s) =>
        InstanceOfItself(s);
        assert s in {s};
      case FString(parts) => FStringSound(p, sc, parts, env, depth, st);
      case Name(id) => NameSound(p, sc, id, env, depth, st);
      case Attr(alias, attr) => AttrSound(p, sc, alias, attr, env, depth, st);
      case Plus(l, r) => PlusSound(p, sc, l, r, env, depth, st);
      case Cond(thn, els) => CondSound(p, sc, thn, els, env, depth, st);
      case Bool(values) => BoolSound(p, sc, values, env, depth, st);
      case Index(base, key) => IndexSound(p, sc, base, key, env, depth, st);
      case Call(callee, args, keywords) => CallSound(p, sc, callee, args, keywords, env, depth, st);
      case _ =>
    }
  }

  lemma {:induction false} ListSound(p: Program, sc: Scope, es: seq<Expr>, env: Env, depth: nat, st: State)
    requires GoodScope(p, sc) && (forall i :: 0 <= i < |es| ==> Foldable(p, sc, PlaceOf(env), es[i]))
    requires GoodEnv(p, sc, env) && MemoSound(p, st)
    requires depth <= MAX_DEPTH + 1 && !EvalList(p, es, env, depth, st).st.capped
    ensures MemoSound(p, EvalList(p, es, env, depth, st).st)
    ensures forall i :: 0 <= i < |es| ==> CoversAll(p, sc, env, es[i], EvalList(p, es, env, depth, st).lists[i])
    decreases Unmemoised(p, st), MAX_DEPTH + 1 - depth, 3, |es|
  {
    hide Unmemoised;
    if es == [] {
    } else {
      var r := Evaluate(p, es[0], env, depth, st);
      Sound(p, sc, es[0], env, depth, st);
      ListSound(p, sc, es[1..], env, depth, r.st);
    }
  }

  /** Every text the parts can spell is covered by their folds. */
  ghost predicate PartsCovered(p: Program, env: Env, parts: seq<Part>, lists: seq<set<string>>) {
    forall fr, us :: Admits(p, env, fr) && PartsText(p, Collect, fr, parts, us).Some?
      ==> TextCovered(lists, PartsText(p, Collect, fr, parts, us).value)
  }

  lemma {:induction false} PartsSound(p: Program, sc: Scope, parts: seq<Part>, env: Env, depth: nat, st: State)
    requires GoodScope(p, sc) && Foldable(p, sc, PlaceOf(env), FString(parts))
    requires GoodEnv(p, sc, env) && MemoSound(p, st)
    requires depth <= MAX_DEPTH + 1 && !EvalParts(p, parts, env, depth, st).st.capped
    ensures MemoSound(p, EvalParts(p, parts, env, depth, st).st)
    ensures PartsCovered(p, env, parts, EvalParts(p, parts, env, depth, st).lists)
    decreases Unmemoised(p, st), MAX_DEPTH + 1 - depth, 3, |parts|
  {
    hide Unmemoised;
    if parts == [] {
    } else {
      var r := match parts[0]
        case Text(s) => Fold({s}, st)
        case Field(e, spec) => if spec then Fold({HOLE}, st) else Evaluate(p, e, env, depth, st);
      PartsTailFoldable(p, sc, PlaceOf(env), parts);
      if parts[0].Field? && !parts[0].spec { Sound(p, sc, parts[0].expr, env, depth, st); }
      PartsSound(p, sc, parts[1..], env, depth, r.st);
      var rest := EvalParts(p, parts[1..], env, depth, r.st);
      assert EvalParts(p, parts, env, depth, st).lists == [r.vals] + rest.lists;
      PartsStepCovered(p, sc, parts, env, r.vals, rest.lists);
    }
  }

  /** A covered first part before covered others. */
  lemma PartsStepCovered(p: Program, sc: Scope, parts: seq<Part>, env: Env, vals: set<string>, rest: seq<set<string>>)
    requires parts != [] && PartsCovered(p, env, parts[1..], rest) && Foldable(p, sc, PlaceOf(env), FString(parts))
    requires parts[0].Text? ==> vals == {parts[0].text}
    requires parts[0].Field? ==>
      if parts[0].spec then vals == {HOLE} else CoversAll(p, sc, env, parts[0].expr, vals)
    ensures PartsCovered(p, env, parts, [vals] + rest)
  {
    var lists := [vals] + rest;
    assert lists[1..] == rest;
    forall fr, us | Admits(p, env, fr) && PartsText(p, Collect, fr, parts, us).Some?
      ensures TextCovered(lists, PartsText(p, Collect, fr, parts, us).value)
    {
      HeadCovered(p, sc, parts[0], env, fr, us[0], vals);
      var s := PartsText(p, Collect, fr, parts, us).value;
      var tail := PartsText(p, Collect, fr, parts[1..], us[1..]).value;
      var k := |s| - |tail|;
      assert s[k..] == tail;
      var t :| t in vals && Instance(t, s[..k]);
      assert t in lists[0] && 0 <= k <= |s| && TextCovered(lists[1..], s[k..]);
    }
  }

  lemma PartsTailFoldable(p: Program, sc: Scope, at: Place, parts: seq<Part>)
    requires Foldable(p, sc, at, FString(parts)) && parts != []
    ensures Foldable(p, sc, at, FString(parts[1..]))
  {
    var rest := parts[1..];
    forall i | 0 <= i < |rest| && rest[i].Field? && !rest[i].spec
      ensures Foldable(p, sc, at, rest[i].expr) && Solid(p, sc, at, rest[i].expr)
    {
      assert parts[i + 1].Field? && !parts[i + 1].spec;
    }
  }

  /** The text of one part along a trace. */
  function PartText(p: Program, fr: Frame, part: Part, u: Tr): Option<string> {
    match part
    case Text(s) => Some(s)
    case Field(e, spec) =>
      if spec then TextOf(VOther, u.val)
      else if |u.kids| == 0 then None
      else
        var v := Value(p, Collect, fr, e, u.kids[0]);
        if v.None? then None else TextOf(v.value, u.val)
  }

  lemma HeadCovered(p: Program, sc: Scope, part: Part, env: Env, fr: Frame, u: Tr, vals: set<string>)
    requires Admits(p, env, fr) && PartText(p, fr, part, u).Some?
    requires part.Text? ==> vals == {part.text}
    requires part.Field? ==>
      if part.spec then vals == {HOLE}
      else CoversAll(p, sc, env, part.expr, vals) && Solid(p, sc, PlaceOf(env), part.expr)
    ensures exists t :: t in vals && Instance(t, PartText(p, fr, part, u).value)
  {
    match part
    case Text(s) =>
      InstanceOfItself(s);
      assert s in vals;
    case Field(e, spec) =>
      if spec {
        HoleIsUniversal();
        assert HOLE in vals && Instance(HOLE, PartText(p, fr, part, u).value);
      } else {
        var v := Value(p, Collect, fr, e, u.kids[0]).value;
        assert Covers(vals, v);
      }
  }

  lemma FStringSound(p: Program, sc: Scope, parts: seq<Part>, env: Env, depth: nat, st: State)
    requires GoodScope(p, sc) && Foldable(p, sc, PlaceOf(env), FString(parts))
    requires GoodEnv(p, sc, env) && MemoSound(p, st)
    requires depth <= MAX_DEPTH && !Evaluate(p, FString(parts), env, depth, st).st.capped
    ensures MemoSound(p, Evaluate(p, FString(parts), env, depth, st).st)
    ensures CoversAll(p, sc, env, FString(parts), Evaluate(p, FString(parts), env, depth, st).vals)
    decreases Unmemoised(p, st), MAX_DEPTH + 1 - depth, 1, 0
  {
    hide Unmemoised;
    hide Product;
    var r := EvalParts(p, parts, env, depth + 1, st);
    PartsSound(p, sc, parts, env, depth + 1, st);
    FStringCovered(p, sc, parts, env, r.lists, r.st);
  }

  lemma FStringCovered(p: Program, sc: Scope, parts: seq<Part>, env: Env, lists: seq<set<string>>, st: State)
    requires GoodScope(p, sc) && PartsCovered(p, env, parts, lists) && !Product(p, lists, st).st.capped
    ensures CoversAll(p, sc, env, FString(parts), Product(p, lists, st).vals)
  {
    forall fr, u | Admits(p, env, fr) && Value(p, Collect, fr, FString(parts), u).Some?
      ensures Fits(Solid(p, sc, PlaceOf(env), FString(parts)), Product(p, lists, st).vals,
                   Value(p, Collect, fr, FString(parts), u).value)
    {
      ProductCoversText(p, lists, st, PartsText(p, Collect, fr, parts, u.kids).value);
    }
  }

  lemma PlusSound(p: Program, sc: Scope, l: Expr, r: Expr, env: Env, depth: nat, st: State)
    requires GoodScope(p, sc) && Foldable(p, sc, PlaceOf(env), Plus(l, r))
    requires GoodEnv(p, sc, env) && MemoSound(p, st)
    requires depth <= MAX_DEPTH && !Evaluate(p, Plus(l, r), env, depth, st).st.capped
    ensures MemoSound(p, Evaluate(p, Plus(l, r), env, depth, st).st)
    ensures CoversAll(p, sc, env, Plus(l, r), Evaluate(p, Plus(l, r), env, depth, st).vals)
    decreases Unmemoised(p, st), MAX_DEPTH + 1 - depth, 1, 0
  {
    hide Unmemoised, Product, MemoSound, CoversAll, GoodEnv, GoodScope, Solid,
      EvalParts, EvalList, EvalTargets, EvalName, EvalConstant, EvalSubscript;
    var a := Evaluate(p, l, env, depth + 1, st);
    var b := Evaluate(p, r, env, depth + 1, a.st);
    Sound(p, sc, l, env, depth + 1, st);
    Sound(p, sc, r, env, depth + 1, a.st);
    PlusCovered(p, sc, l, r, env, a.vals, b.vals, b.st);
  }

  lemma PlusCovered(p: Program, sc: Scope, l: Expr, r: Expr, env: Env, a: set<string>, b: set<string>, st: State)
    requires GoodScope(p, sc) && CoversAll(p, sc, env, l, a) && CoversAll(p, sc, env, r, b)
    requires !Product(p, [a, b], st).st.capped
    ensures CoversAll(p, sc, env, Plus(l, r), Product(p, [a, b], st).vals)
  {
    forall fr, u | Admits(p, env, fr) && Value(p, Collect, fr, Plus(l, r), u).Some?
      ensures Fits(Solid(p, sc, PlaceOf(env), Plus(l, r)), Product(p, [a, b], st).vals,
                   Value(p, Collect, fr, Plus(l, r), u).value)
    {
      var v := Value(p, Collect, fr, l, u.kids[0]).value;
      var w := Value(p, Collect, fr, r, u.kids[1]).value;
      assert Fits(Solid(p, sc, PlaceOf(env), l), a, v) && Fits(Solid(p, sc, PlaceOf(env), r), b, w);
      if v.VStr? {
        PairTextCovered(a, b, v.s, w.s);
        ProductCoversText(p, [a, b], st, v.s + w.s);
      } else if Solid(p, sc, PlaceOf(env), Plus(l, r)) {
        PairUniversalCovered(p, a, b, st, Value(p, Collect, fr, Plus(l, r), u).value);
      }
    }
  }

  lemma CondSound(p: Program, sc: Scope, thn: Expr, els: Expr, env: Env, depth: nat, st: State)
    requires GoodScope(p, sc) && Foldable(p, sc, PlaceOf(env), Cond(thn, els))
    requires GoodEnv(p, sc, env) && MemoSound(p, st)
    requires depth <= MAX_DEPTH && !Evaluate(p, Cond(thn, els), env, depth, st).st.capped
    ensures MemoSound(p, Evaluate(p, Cond(thn, els), env, depth, st).st)
    ensures CoversAll(p, sc, env, Cond(thn, els), Evaluate(p, Cond(thn, els), env, depth, st).vals)
    decreases Unmemoised(p, st), MAX_DEPTH + 1 - depth, 1, 0
  {
    hide Unmemoised, MemoSound, CoversAll, GoodEnv, GoodScope, Solid, Product,
      EvalParts, EvalList, EvalTargets, EvalName, EvalConstant, EvalSubscript;
    var a := Evaluate(p, thn, env, depth + 1, st);
    var b := Evaluate(p, els, env, depth + 1, a.st);
    Sound(p, sc, thn, env, depth + 1, st);
    Sound(p, sc, els, env, depth + 1, a.st);
    CondCovered(p, sc, thn, els, env, a.vals, b.vals);
  }

  lemma BoolSound(p: Program, sc: Scope, values: seq<Expr>, env: Env, depth: nat, st: State)
    requires GoodScope(p, sc) && Foldable(p, sc, PlaceOf(env), Bool(values))
    requires GoodEnv(p, sc, env) && MemoSound(p, st)
    requires depth <= MAX_DEPTH && !Evaluate(p, Bool(values), env, depth, st).st.capped
    ensures MemoSound(p, Evaluate(p, Bool(values), env, depth, st).st)
    ensures CoversAll(p, sc, env, Bool(values), Evaluate(p, Bool(values), env, depth, st).vals)
    decreases Unmemoised(p, st), MAX_DEPTH + 1 - depth, 1, 0
  {
    hide Unmemoised;
    ListSound(p, sc, values, env, depth + 1, st);
    BoolCovered(p, sc, values, env, EvalList(p, values, env, depth + 1, st).lists);
  }

  lemma CondCovered(p: Program, sc: Scope, thn: Expr, els: Expr, env: Env, a: set<string>, b: set<string>)
    requires CoversAll(p, sc, env, thn, a) && CoversAll(p, sc, env, els, b)
    ensures CoversAll(p, sc, env, Cond(thn, els), a + b)
  {
    forall fr, u | Admits(p, env, fr) && Value(p, Collect, fr, Cond(thn, els), u).Some?
      ensures Fits(Solid(p, sc, PlaceOf(env), Cond(thn, els)), a + b, Value(p, Collect, fr, Cond(thn, els), u).value)
    {
      var v := Value(p, Collect, fr, if u.pick == 0 then thn else els, u.kids[0]).value;
      if u.pick == 0 {
        FitsMore(Solid(p, sc, PlaceOf(env), thn), a, a + b, v);
      } else {
        FitsMore(Solid(p, sc, PlaceOf(env), els), b, a + b, v);
      }
    }
  }

  lemma BoolCovered(p: Program, sc: Scope, values: seq<Expr>, env: Env, lists: seq<set<string>>)
    requires |lists| == |values| && forall i :: 0 <= i < |values| ==> CoversAll(p, sc, env, values[i], lists[i])
    ensures CoversAll(p, sc, env, Bool(values), UnionAll(lists))
  {
    forall fr, u | Admits(p, env, fr) && Value(p, Collect, fr, Bool(values), u).Some?
      ensures Fits(Solid(p, sc, PlaceOf(env), Bool(values)), UnionAll(lists), Value(p, Collect, fr, Bool(values), u).value)
    {
      var v := Value(p, Collect, fr, values[u.pick], u.kids[0]).value;
      assert Fits(Solid(p, sc, PlaceOf(env), values[u.pick]), lists[u.pick], v);
      UnionAllHas(lists, u.pick);
      FitsMore(Solid(p, sc, PlaceOf(env), values[u.pick]), lists[u.pick], UnionAll(lists), v);
    }
  }

  /** A module-level reference is covered by its constant's folds, or by a placeholder. */
  lemma GlobalCovers(p: Program, ref: Option<Key>, u: Tr, vals: set<string>)
    requires GlobalValue(p, Collect, ref, u).Some?
    requires if ref.Some? && ref.value in p.constants then ConstantCovered(p, ref.value, vals) else vals == {HOLE}
    ensures Covers(vals, GlobalValue(p, Collect, ref, u).value)
  {
    if ref.Some? && ref.value in p.constants {
      assert GlobalValue(p, Collect, ref, u)
        == Value(p, Collect, ModuleFrame(ref.value.0), p.constants[ref.value], u.kids[0]);
    } else {
      HoleCovers(GlobalValue(p, Collect, ref, u).value);
    }
  }

  /** The fold of a module-level reference. */
  function EvalGlobal(p: Program, ref: Option<Key>, st: State): Fold {
    if ref.Some? && ref.value in p.constants then EvalConstant(p, ref.value, st) else Fold({HOLE}, st)
  }

  lemma AttrSound(p: Program, sc: Scope, alias: string, attr: string, env: Env, depth: nat, st: State)
    requires GoodScope(p, sc) && Foldable(p, sc, PlaceOf(env), Attr(alias, attr))
    requires GoodEnv(p, sc, env) && MemoSound(p, st)
    requires depth <= MAX_DEPTH && !Evaluate(p, Attr(alias, attr), env, depth, st).st.capped
    ensures MemoSound(p, Evaluate(p, Attr(alias, attr), env, depth, st).st)
    ensures CoversAll(p, sc, env, Attr(alias, attr), Evaluate(p, Attr(alias, attr), env, depth, st).vals)
    decreases Unmemoised(p, st), MAX_DEPTH + 1 - depth, 1, 0
  {
    hide Unmemoised;
    var ref := ResolveAttr(p, env.modl, alias, attr);
    var r := EvalGlobal(p, ref, st);
    assert Evaluate(p, Attr(alias, attr), env, depth, st) == r && InScope(p, sc, ref);
    if ref.Some? && ref.value in p.constants { ConstantSound(p, sc, ref.value, st); }
    AttrCovered(p, sc, alias, attr, env, r.vals);
  }

  lemma AttrCovered(p: Program, sc: Scope, alias: string, attr: string, env: Env, vals: set<string>)
    requires GoodEnv(p, sc, env) && Foldable(p, sc, PlaceOf(env), Attr(alias, attr))
    requires var ref := ResolveAttr(p, env.modl, alias, attr);
      if ref.Some? && ref.value in p.constants then ConstantCovered(p, ref.value, vals) else vals == {HOLE}
    ensures CoversAll(p, sc, env, Attr(alias, attr), vals)
  {
    forall fr, u | Admits(p, env, fr) && Value(p, Collect, fr, Attr(alias, attr), u).Some?
      ensures Fits(Solid(p, sc, PlaceOf(env), Attr(alias, attr)), vals, Value(p, Collect, fr, Attr(alias, attr), u).value)
    {
      if FrameLocal(fr, alias) {
        HoleCovers(u.val);
      } else {
        GlobalCovers(p, ResolveAttr(p, env.modl, alias, attr), u, vals);
      }
    }
  }

  lemma NameSound(p: Program, sc: Scope, id: string, env: Env, depth: nat, st: State)
    requires GoodScope(p, sc) && Foldable(p, sc, PlaceOf(env), Name(id))
    requires GoodEnv(p, sc, env) && MemoSound(p, st)
    requires depth <= MAX_DEPTH && !EvalName(p, id, env, depth, st).st.capped
    ensures MemoSound(p, EvalName(p, id, env, depth, st).st)
    ensures CoversAll(p, sc, env, Name(id), EvalName(p, id, env, depth, st).vals)
    decreases Unmemoised(p, st), MAX_DEPTH + 1 - depth, 1, 0
  {
    hide Unmemoised;
    if id in env.bindings {
      BoundCovered(p, sc, id, env);
    } else if id in env.stack {
      HoleCoversAll(p, sc, env, Name(id));
    } else {
      RhsFoldable(p, sc, id, env);
      var rhs := LocalRhs(env, id);
      var inner := Env(env.modl, env.fn, env.bindings, env.stack + [id], map[]);
      assert GoodEnv(p, sc, inner);
      hide EvalList, EvalConstant, GoodScope, GoodEnv, MemoSound, UnionAll;
      var rs := EvalList(p, rhs, inner, depth + 1, st);
      ListSound(p, sc, rhs, inner, depth + 1, st);
      var vals := UnionAll(rs.lists);
      if vals != {} {
        LocalCovered(p, sc, id, env, inner, rs.lists, vals);
      } else {
        var ref := Resolve(p, env.modl, id);
        var r := EvalGlobal(p, ref, rs.st);
        assert EvalName(p, id, env, depth, st) == r && InScope(p, sc, ref);
        if ref.Some? && ref.value in p.constants { ConstantSound(p, sc, ref.value, rs.st); }
        LocalCovered(p, sc, id, env, inner, rs.lists, r.vals);
      }
    }
  }

  function LocalRhs(env: Env, id: string): seq<Expr> {
    if env.fn.Some? then AssignmentsTo(env.fn.value.body, id) else []
  }

  /** The assignments of a readable local are foldable, and solid where it is. */
  lemma RhsFoldable(p: Program, sc: Scope, id: string, env: Env)
    requires GoodScope(p, sc) && GoodEnv(p, sc, env) && Foldable(p, sc, PlaceOf(env), Name(id))
    ensures forall i :: 0 <= i < |LocalRhs(env, id)| ==>
      Foldable(p, sc, PlaceOf(env), LocalRhs(env, id)[i])
      && (Solid(p, sc, PlaceOf(env), Name(id)) ==> Solid(p, sc, PlaceOf(env), LocalRhs(env, id)[i]))
  {
    var rhs := LocalRhs(env, id);
    if rhs != [] {
      var fn := env.fn.value;
      assert IsLocal(fn, id) && ReadableLocal(p, sc, fn, env.modl, id) && !IsParam(fn, id);
      assert Variable(fn, id) in sc.items && GoodVariable(p, sc, fn, id);
      assert Solid(p, sc, PlaceOf(env), Name(id)) <==> Variable(fn, id) in sc.solid;
      hide Foldable, Solid, GoodScope;
      forall i | 0 <= i < |rhs|
        ensures Inside(p, sc, fn, rhs[i]) && (Variable(fn, id) in sc.solid ==> SolidInside(p, sc, fn, rhs[i]))
      {
        assert rhs[i] in AssignmentsTo(fn.body, id);
      }
    }
  }

  lemma BoundCovered(p: Program, sc: Scope, id: string, env: Env)
    requires GoodEnv(p, sc, env) && id in env.bindings && Foldable(p, sc, PlaceOf(env), Name(id))
    ensures CoversAll(p, sc, env, Name(id), env.bindings[id])
  {}

  /** A name that is not a bound parameter: a local is covered by the folds of its
      assignments, anything else by the fold of what it resolves to. */
  lemma LocalCovered(p: Program, sc: Scope, id: string, env: Env, inner: Env, lists: seq<set<string>>, vals: set<string>)
    requires GoodScope(p, sc) && GoodEnv(p, sc, env) && id !in env.bindings && Foldable(p, sc, PlaceOf(env), Name(id))
    requires inner == Env(env.modl, env.fn, env.bindings, env.stack + [id], map[])
    requires |lists| == |LocalRhs(env, id)|
    requires forall i :: 0 <= i < |lists| ==> CoversAll(p, sc, inner, LocalRhs(env, id)[i], lists[i])
    requires UnionAll(lists) != {} ==> vals == UnionAll(lists)
    requires UnionAll(lists) == {} ==>
      var ref := Resolve(p, env.modl, id);
      if ref.Some? && ref.value in p.constants then ConstantCovered(p, ref.value, vals) else vals == {HOLE}
    ensures CoversAll(p, sc, env, Name(id), vals)
  {
    RhsFoldable(p, sc, id, env);
    assert LocalAt(PlaceOf(env), id) ==> ReadableLocal(p, sc, env.fn.value, env.modl, id);
    hide Foldable, Solid, GoodScope;
    var solid := Solid(p, sc, PlaceOf(env), Name(id));
    forall fr, u | Admits(p, env, fr) && Value(p, Collect, fr, Name(id), u).Some?
      ensures Fits(solid, vals, Value(p, Collect, fr, Name(id), u).value)
    {
      assert Value(p, Collect, fr, Name(id), u) == NameValue(p, Collect, fr, id, u);
      var rhs := LocalRhs(env, id);
      if FrameLocal(fr, id) && !IsParam(fr.fn.value, id) {
        var i := u.pick;
        assert Admits(p, inner, fr);
        assert NameValue(p, Collect, fr, id, u) == Value(p, Collect, fr, rhs[i], u.kids[0]);
        assert CoversAll(p, sc, inner, rhs[i], lists[i]);
        UnionAllHas(lists, i);
        FitsMore(Solid(p, sc, PlaceOf(env), rhs[i]), lists[i], vals, Value(p, Collect, fr, rhs[i], u.kids[0]).value);
      } else {
        assert rhs == [];
        if FrameLocal(fr, id) {
          HoleCovers(fr.vars[id]);
        } else {
          assert NameValue(p, Collect, fr, id, u) == GlobalValue(p, Collect, Resolve(p, env.modl, id), u);
          GlobalCovers(p, Resolve(p, env.modl, id), u, vals);
        }
      }
    }
  }

  lemma {:induction false} ConstantSound(p: Program, sc: Scope, key: Key, st: State)
    requires GoodScope(p, sc) && MemoSound(p, st)
    requires key in p.constants && Definition(key) in sc.items && !EvalConstant(p, key, st).st.capped
    ensures MemoSound(p, EvalConstant(p, key, st).st)
    ensures ConstantCovered(p, key, EvalConstant(p, key, st).vals)
    decreases Unmemoised(p, st), 0, 0, 0
  {
    hide Unmemoised;
    if key !in st.memo {
      MemoiseOne(p, st, key, {HOLE}, st.capped);
      var guarded := State(st.memo[key := {HOLE}], st.capped);
      var env := Env(key.0, None, map[], [key.1], map[]);
      HoleCoversAll(p, sc, env, p.constants[key]);
      assert ConstantCovered(p, key, {HOLE}) by { ModuleFrameAdmitted(p, sc, env, key, {HOLE}); }
      assert MemoSound(p, guarded);
      Sound(p, sc, p.constants[key], env, 0, guarded);
      ModuleFrameAdmitted(p, sc, env, key, Evaluate(p, p.constants[key], env, 0, guarded).vals);
    }
  }

  lemma ModuleFrameAdmitted(p: Program, sc: Scope, env: Env, key: Key, vals: set<string>)
    requires key in p.constants && env.modl == key.0 && env.fn.None? && env.callables == map[]
    requires CoversAll(p, sc, env, p.constants[key], vals) && Solid(p, sc, PlaceOf(env), p.constants[key])
    ensures ConstantCovered(p, key, vals)
  {
    assert Admits(p, env, ModuleFrame(key.0));
  }

  // -- dictionary lookups ------------------------------------------------------------------------

  function EntryValues(entries: seq<(Option<string>, Expr)>): seq<Expr> {
    seq(|entries|, i requires 0 <= i < |entries| => entries[i].1)
  }

  lemma IndexSound(p: Program, sc: Scope, base: string, key: Option<string>, env: Env, depth: nat, st: State)
    requires GoodScope(p, sc) && Foldable(p, sc, PlaceOf(env), Index(base, key))
    requires GoodEnv(p, sc, env) && MemoSound(p, st)
    requires depth <= MAX_DEPTH && !EvalSubscript(p, base, key, env, depth, st).st.capped
    ensures MemoSound(p, EvalSubscript(p, base, key, env, depth, st).st)
    ensures CoversAll(p, sc, env, Index(base, key), EvalSubscript(p, base, key, env, depth, st).vals)
    decreases Unmemoised(p, st), MAX_DEPTH + 1 - depth, 1, 0
  {
    hide Unmemoised, EvalList, Evaluate, UnionAll;
    var ref := Resolve(p, env.modl, base);
    if !IsDict(p, ref) {
      HoleCoversAll(p, sc, env, Index(base, key));
    } else {
      assert Entries(ref.value) in sc.items && GoodEntries(p, sc, ref.value);
      var entries := p.constants[ref.value].entries;
      var there := Env(ref.value.0, None, map[], [], map[]);
      hide GoodScope, Foldable, Solid;
      var hit := if key.Some? then FirstWithKey(entries, key.value) else |entries|;
      if key.Some? { FirstWithKeyMeans(entries, key.value); }
      if hit < |entries| {
        assert AtModule(p, sc, ref.value.0, entries[hit].1);
        Sound(p, sc, entries[hit].1, there, depth + 1, st);
        IndexCovered(p, sc, base, key, env, hit, Evaluate(p, entries[hit].1, there, depth + 1, st).vals);
      } else {
        var es := EntryValues(entries);
        forall i | 0 <= i < |es| ensures Foldable(p, sc, PlaceOf(there), es[i]) {
          assert AtModule(p, sc, ref.value.0, entries[i].1);
        }
        ListSound(p, sc, es, there, depth + 1, st);
        EntriesCovered(p, sc, base, key, env, EvalList(p, es, there, depth + 1, st).lists);
      }
    }
  }

  lemma {:induction false} FirstWithKeyMeans(entries: seq<(Option<string>, Expr)>, key: string)
    ensures var hit := FirstWithKey(entries, key);
      && hit <= |entries| && (hit < |entries| ==> entries[hit].0 == Some(key))
      && forall i :: 0 <= i < hit ==> entries[i].0 != Some(key)
    decreases |entries|
  {
    if entries == [] || entries[0].0 == Some(key) {
    } else {
      FirstWithKeyMeans(entries[1..], key);
    }
  }

  /** The one entry with the key is the one the dictionary holds. */
  lemma IndexCovered(p: Program, sc: Scope, base: string, key: Option<string>, env: Env, hit: nat, vals: set<string>)
    requires var ref := Resolve(p, env.modl, base);
      && IsDict(p, ref) && GoodEntries(p, sc, ref.value) && !LocalAt(PlaceOf(env), base)
      && hit < |p.constants[ref.value].entries| && key.Some? && p.constants[ref.value].entries[hit].0 == key
      && CoversAll(p, sc, Env(ref.value.0, None, map[], [], map[]), p.constants[ref.value].entries[hit].1, vals)
    ensures CoversAll(p, sc, env, Index(base, key), vals)
  {
    hide Foldable, Solid;
    var ref := Resolve(p, env.modl, base);
    var entries := p.constants[ref.value].entries;
    var there := Env(ref.value.0, None, map[], [], map[]);
    forall fr, u | Admits(p, env, fr) && Value(p, Collect, fr, Index(base, key), u).Some?
      ensures Covers(vals, Value(p, Collect, fr, Index(base, key), u).value)
    {
      assert AtModule(p, sc, ref.value.0, entries[hit].1) && u.pick == hit;
      assert Admits(p, there, ModuleFrame(ref.value.0));
      assert Value(p, Collect, fr, Index(base, key), u)
        == Value(p, Collect, ModuleFrame(ref.value.0), entries[hit].1, u.kids[0]);
    }
  }

  lemma EntriesCovered(p: Program, sc: Scope, base: string, key: Option<string>, env: Env, lists: seq<set<string>>)
    requires var ref := Resolve(p, env.modl, base);
      && IsDict(p, ref) && GoodEntries(p, sc, ref.value) && !LocalAt(PlaceOf(env), base)
      && |lists| == |p.constants[ref.value].entries|
      && forall i :: 0 <= i < |lists| ==>
           CoversAll(p, sc, Env(ref.value.0, None, map[], [], map[]), p.constants[ref.value].entries[i].1, lists[i])
    ensures CoversAll(p, sc, env, Index(base, key), OrHole(UnionAll(lists)))
  {
    hide Foldable, Solid, UnionAll;
    var ref := Resolve(p, env.modl, base);
    var entries := p.constants[ref.value].entries;
    var there := Env(ref.value.0, None, map[], [], map[]);
    forall fr, u | Admits(p, env, fr) && Value(p, Collect, fr, Index(base, key), u).Some?
      ensures Covers(OrHole(UnionAll(lists)), Value(p, Collect, fr, Index(base, key), u).value)
    {
      var i := u.pick;
      assert AtModule(p, sc, ref.value.0, entries[i].1);
      assert Admits(p, there, ModuleFrame(ref.value.0));
      var v := Value(p, Collect, ModuleFrame(ref.value.0), entries[i].1, u.kids[0]).value;
      assert Value(p, Collect, fr, Index(base, key), u) == Some(v);
      assert Covers(lists[i], v);
      UnionAllHas(lists, i);
      CoversMore(lists[i], OrHole(UnionAll(lists)), v);
    }
  }

  // -- calls -------------------------------------------------------------------------------------

  /** Each name bound by the pairs is bound to folds covering its argument. */
  ghost predicate PairsCovered(p: Program, env: Env, pairs: seq<(string, Expr)>, bindings: map<string, set<string>>) {
    forall fr, us, x :: Admits(p, env, fr) && PairValues(p, Collect, fr, pairs, us).Some? && x in PairNames(pairs)
      ==> x in bindings && Covers(bindings[x], PairValues(p, Collect, fr, pairs, us).value[x])
  }

  predicate ArgsFoldable(p: Program, sc: Scope, at: Place, args: seq<Expr>, keywords: seq<(string, Expr)>) {
    && (forall i :: 0 <= i < |args| ==> Foldable(p, sc, at, args[i]) && Solid(p, sc, at, args[i]))
    && (forall i :: 0 <= i < |keywords| ==> Foldable(p, sc, at, keywords[i].1) && Solid(p, sc, at, keywords[i].1))
  }

  predicate PairsFoldable(p: Program, sc: Scope, at: Place, pairs: seq<(string, Expr)>) {
    forall i :: 0 <= i < |pairs| ==> Foldable(p, sc, at, pairs[i].1) && Solid(p, sc, at, pairs[i].1)
  }

  lemma {:induction false} PairsSound(p: Program, sc: Scope, pairs: seq<(string, Expr)>, env: Env, depth: nat,
                                      bindings: map<string, set<string>>, st: State)
    requires GoodScope(p, sc) && PairsFoldable(p, sc, PlaceOf(env), pairs)
    requires GoodEnv(p, sc, env) && MemoSound(p, st)
    requires depth <= MAX_DEPTH + 1 && !EvalPairs(p, pairs, env, depth, bindings, st).st.capped
    ensures MemoSound(p, EvalPairs(p, pairs, env, depth, bindings, st).st)
    ensures forall x :: x in EvalPairs(p, pairs, env, depth, bindings, st).bindings <==> x in bindings || x in PairNames(pairs)
    ensures forall x :: x in bindings && x !in PairNames(pairs) ==>
      EvalPairs(p, pairs, env, depth, bindings, st).bindings[x] == bindings[x]
    ensures Distinct(pairs) ==> PairsCovered(p, env, pairs, EvalPairs(p, pairs, env, depth, bindings, st).bindings)
    decreases Unmemoised(p, st), MAX_DEPTH + 1 - depth, 3, |pairs|
  {
    hide Unmemoised;
    if pairs == [] {
    } else {
      var r := Evaluate(p, pairs[0].1, env, depth, st);
      Sound(p, sc, pairs[0].1, env, depth, st);
      var more := bindings[pairs[0].0 := r.vals];
      PairsSound(p, sc, pairs[1..], env, depth, more, r.st);
      PairNamesCons(pairs);
      if Distinct(pairs) {
        var all := EvalPairs(p, pairs, env, depth, bindings, st).bindings;
        assert pairs[0].0 !in PairNames(pairs[1..]);
        forall fr, us, x | Admits(p, env, fr) && PairValues(p, Collect, fr, pairs, us).Some? && x in PairNames(pairs)
          ensures x in all && Covers(all[x], PairValues(p, Collect, fr, pairs, us).value[x])
        {
          assert PairValues(p, Collect, fr, pairs[1..], us[1..]).Some?;
          if x == pairs[0].0 {
            assert Covers(r.vals, Value(p, Collect, fr, pairs[0].1, us[0]).value);
          } else {
            assert x in PairNames(pairs[1..]);
          }
        }
      }
    }
  }

  /** The first of distinct pairs, and the rest. */
  lemma PairStep(p: Program, sc: Scope, at: Place, fr: Frame, pairs: seq<(string, Expr)>, us: seq<Tr>)
    requires pairs != [] && Distinct(pairs) && PairsFoldable(p, sc, at, pairs)
    requires PairValues(p, Collect, fr, pairs, us).Some?
    ensures PairNames(pairs) == {pairs[0].0} + PairNames(pairs[1..]) && pairs[0].0 !in PairNames(pairs[1..])
    ensures Distinct(pairs[1..]) && PairsFoldable(p, sc, at, pairs[1..])
    ensures us != [] && Value(p, Collect, fr, pairs[0].1, us[0]).Some?
    ensures PairValues(p, Collect, fr, pairs[1..], us[1..]).Some?
    ensures PairValues(p, Collect, fr, pairs, us).value
      == PairValues(p, Collect, fr, pairs[1..], us[1..]).value[pairs[0].0 := Value(p, Collect, fr, pairs[0].1, us[0]).value]
  {
    hide Value, Foldable, Solid;
    PairNamesCons(pairs);
    assert pairs[0].0 !in PairNames(pairs[1..]);
  }

  /** A parameter recorded as bound to a function holds that function at run time. */
  lemma {:induction false} CallablesSound(p: Program, sc: Scope, env: Env, pairs: seq<(string, Expr)>, fr: Frame, us: seq<Tr>,
                                          x: string)
    requires GoodScope(p, sc) && GoodEnv(p, sc, env) && Admits(p, env, fr)
    requires Distinct(pairs) && PairValues(p, Collect, fr, pairs, us).Some?
    requires x in Callables(p, env, pairs) && PairsFoldable(p, sc, PlaceOf(env), pairs)
    ensures x in PairNames(pairs)
    ensures PairValues(p, Collect, fr, pairs, us).value[x] == VFun(Callables(p, env, pairs)[x])
    decreases pairs
  {
    hide GoodScope, GoodEnv, Admits, Value, FunctionFor, Foldable, Solid, PairValues;
    PairStep(p, sc, PlaceOf(env), fr, pairs, us);
    var later := Callables(p, env, pairs[1..]);
    if x in later {
      CallablesSound(p, sc, env, pairs[1..], fr, us[1..], x);
    } else {
      CallableValue(p, sc, env, pairs[0].1, fr, us[0], Callables(p, env, pairs)[x]);
    }
  }

  /** An expression recorded as a function by reference has that function as its only value. */
  lemma CallableValue(p: Program, sc: Scope, env: Env, e: Expr, fr: Frame, u: Tr, key: Key)
    requires GoodScope(p, sc) && GoodEnv(p, sc, env) && Admits(p, env, fr) && Foldable(p, sc, PlaceOf(env), e)
    requires if FunctionFor(p, env.modl, e).Some? then key == FunctionFor(p, env.modl, e).value
             else e.Name? && e.id in env.callables && key == env.callables[e.id]
    ensures Value(p, Collect, fr, e, u) == Some(VFun(key))
  {
    if FunctionFor(p, env.modl, e).Some? {
      FunctionValue(p, sc, env, e, fr, u);
    } else {
      assert IsParam(env.fn.value, e.id) && e.id in fr.vars;
      assert Value(p, Collect, fr, e, u) == NameValue(p, Collect, fr, e.id, u);
    }
  }

  /** An expression that names a package function has that function as its only value. */
  lemma FunctionValue(p: Program, sc: Scope, env: Env, e: Expr, fr: Frame, u: Tr)
    requires GoodScope(p, sc) && GoodEnv(p, sc, env) && Admits(p, env, fr)
    requires FunctionFor(p, env.modl, e).Some? && Foldable(p, sc, PlaceOf(env), e)
    ensures Value(p, Collect, fr, e, u) == Some(VFun(FunctionFor(p, env.modl, e).value))
  {
    var ref := FunctionFor(p, env.modl, e);
    assert ref.value in p.functions && ref.value !in p.constants by { assert Definition(ref.value) in sc.items; }
    match e
    case Name(id) =>
      assert !FrameLocal(fr, id);
      assert Value(p, Collect, fr, e, u) == GlobalValue(p, Collect, ref, u);
    case Attr(alias, attr) =>
      assert !FrameLocal(fr, alias);
      assert Value(p, Collect, fr, e, u) == GlobalValue(p, Collect, ref, u);
  }

  lemma CallPairsFoldable(p: Program, sc: Scope, at: Place, callee: Fn, args: seq<Expr>, keywords: seq<(string, Expr)>)
    requires ArgsFoldable(p, sc, at, args, keywords)
    ensures PairsFoldable(p, sc, at, CallPairs(callee, args, keywords))
  {
    hide Foldable, Solid;
    var pairs := CallPairs(callee, args, keywords);
    var n := if |args| <= |callee.params| then |args| else |callee.params|;
    forall i | 0 <= i < |pairs| ensures Foldable(p, sc, at, pairs[i].1) && Solid(p, sc, at, pairs[i].1) {
      if i >= n {
        var pair := NamedPairs(callee, keywords)[i - n];
        assert pair in keywords;
        var k :| 0 <= k < |keywords| && keywords[k] == pair;
        assert pairs[i] == pair;
      } else {
        assert pairs[i].1 == args[i];
      }
    }
  }

  lemma PairIsParam(callee: Fn, args: seq<Expr>, keywords: seq<(string, Expr)>, i: nat)
    requires i < |CallPairs(callee, args, keywords)|
    ensures IsParam(callee, CallPairs(callee, args, keywords)[i].0)
  {
    var n := if |args| <= |callee.params| then |args| else |callee.params|;
    if i < n {
      assert callee.params[i] in callee.params + callee.kwonly;
    } else {
      assert CallPairs(callee, args, keywords)[i] == NamedPairs(callee, keywords)[i - n];
    }
  }

  /** The function a call reaches at run time is the one the folder expands. */
  lemma CalleeIsTarget(p: Program, sc: Scope, env: Env, callee: Expr, fr: Frame)
    requires GoodScope(p, sc) && GoodEnv(p, sc, env) && Admits(p, env, fr)
    requires Targets(p, env, callee) != [] && Foldable(p, sc, PlaceOf(env), callee)
    ensures Callee(p, fr, callee).Some? && Targets(p, env, callee) == [Callee(p, fr, callee).value]
  {
    var direct := FunctionFor(p, env.modl, callee);
    if direct.Some? {
      assert Definition(direct.value) in sc.items;
      match callee
      case Name(id) => assert !FrameLocal(fr, id);
      case Attr(alias, attr) => assert !FrameLocal(fr, alias);
    } else {
      assert IsParam(env.fn.value, callee.id);
      assert Definition(env.callables[callee.id]) in sc.items;
    }
  }

  lemma {:induction false} CallSound(p: Program, sc: Scope, callee: Expr, args: seq<Expr>, keywords: seq<(string, Expr)>,
                                     env: Env, depth: nat, st: State)
    requires GoodScope(p, sc) && Foldable(p, sc, PlaceOf(env), Call(callee, args, keywords))
    requires GoodEnv(p, sc, env) && MemoSound(p, st)
    requires depth <= MAX_DEPTH && !Evaluate(p, Call(callee, args, keywords), env, depth, st).st.capped
    ensures MemoSound(p, Evaluate(p, Call(callee, args, keywords), env, depth, st).st)
    ensures CoversAll(p, sc, env, Call(callee, args, keywords), Evaluate(p, Call(callee, args, keywords), env, depth, st).vals)
    decreases Unmemoised(p, st), MAX_DEPTH + 1 - depth, 1, 0
  {
    hide Unmemoised, MemoSound, CoversAll, EvalTargets, EvalList, GoodEnv, CallPairs, GoodScope, FoldableFn, Solid;
    var e := Call(callee, args, keywords);
    var targets := Targets(p, env, callee);
    if targets == [] {
    } else {
      TargetFoldable(p, sc, env, callee, args, keywords);
    }
    if targets == [] || depth > MAX_CALL_DEPTH * 4 {
      HoleCoversAll(p, sc, env, e);
    } else if targets[0].name in env.stack {
      HoleCoversAll(p, sc, env, e);
      EvaluateSelfCall(p, callee, args, keywords, env, depth, st);
    } else {
      var fn := targets[0];
      EvaluateCall(p, callee, args, keywords, env, depth, st);
      hide Evaluate, Expanded;
      ExpandSound(p, sc, fn, args, keywords, env, depth, st);
      CallCovered(p, sc, callee, args, keywords, env, depth, st);
    }
  }

  /** What folding a call to one expandable helper comes to. */
  lemma EvaluateCall(p: Program, callee: Expr, args: seq<Expr>, keywords: seq<(string, Expr)>,
                     env: Env, depth: nat, st: State)
    requires depth <= MAX_CALL_DEPTH * 4
    requires |Targets(p, env, callee)| == 1 && Targets(p, env, callee)[0].name !in env.stack
    ensures var rs := Expanded(p, Targets(p, env, callee)[0], args, keywords, env, depth, st);
      Evaluate(p, Call(callee, args, keywords), env, depth, st) == Fold(OrHole(UnionAll(rs.lists)), rs.st)
  {
    hide Unmemoised, EvalList, BindCall, UnionAll;
    var targets := Targets(p, env, callee);
    var rs := Expanded(p, targets[0], args, keywords, env, depth, st);
    var rest := EvalTargets(p, targets[1..], args, keywords, env, depth, rs.st);
    assert rest == Fold({}, rs.st);
    assert EvalTargets(p, targets, args, keywords, env, depth, st) == Fold(UnionAll(rs.lists) + rest.vals, rest.st);
    assert UnionAll(rs.lists) + {} == UnionAll(rs.lists);
  }

  lemma TargetFoldable(p: Program, sc: Scope, env: Env, callee: Expr, args: seq<Expr>, keywords: seq<(string, Expr)>)
    requires GoodScope(p, sc) && GoodEnv(p, sc, env) && Foldable(p, sc, PlaceOf(env), Call(callee, args, keywords))
    requires Targets(p, env, callee) != []
    ensures |Targets(p, env, callee)| == 1 && FoldableFn(p, sc, Targets(p, env, callee)[0])
    ensures Foldable(p, sc, PlaceOf(env), callee) && ArgsFoldable(p, sc, PlaceOf(env), args, keywords)
    ensures Solid(p, sc, PlaceOf(env), Call(callee, args, keywords)) ==> SolidFn(p, sc, Targets(p, env, callee)[0])
  {
    hide FoldableFn, SolidFn, AtModule;
    var direct := FunctionFor(p, env.modl, callee);
    if direct.Some? {
      assert Definition(direct.value) in sc.items;
    } else {
      assert Definition(env.callables[callee.id]) in sc.items;
    }
  }

  /** A helper already being expanded folds to a placeholder. */
  lemma EvaluateSelfCall(p: Program, callee: Expr, args: seq<Expr>, keywords: seq<(string, Expr)>,
                         env: Env, depth: nat, st: State)
    requires depth <= MAX_CALL_DEPTH * 4
    requires |Targets(p, env, callee)| == 1 && Targets(p, env, callee)[0].name in env.stack
    ensures Evaluate(p, Call(callee, args, keywords), env, depth, st) == Fold({HOLE}, st)
  {
    var targets := Targets(p, env, callee);
    assert EvalTargets(p, targets[1..], args, keywords, env, depth, st) == Fold({}, st);
  }

  lemma CallCovered(p: Program, sc: Scope, callee: Expr, args: seq<Expr>, keywords: seq<(string, Expr)>,
                    env: Env, depth: nat, st: State)
    requires GoodScope(p, sc) && Foldable(p, sc, PlaceOf(env), Call(callee, args, keywords))
    requires GoodEnv(p, sc, env) && MemoSound(p, st)
    requires depth <= MAX_DEPTH && Targets(p, env, callee) != []
    requires !Expanded(p, Targets(p, env, callee)[0], args, keywords, env, depth, st).st.capped
    ensures CoversAll(p, sc, env, Call(callee, args, keywords),
                      OrHole(UnionAll(Expanded(p, Targets(p, env, callee)[0], args, keywords, env, depth, st).lists)))
    decreases Unmemoised(p, st), MAX_DEPTH + 1 - depth, 0, 3
  {
    hide Unmemoised, Expanded, GoodScope, GoodEnv, MemoSound, Admits, UnionAll, Solid, Foldable, SolidFn, FoldableFn;
    var e, fn := Call(callee, args, keywords), Targets(p, env, callee)[0];
    TargetFoldable(p, sc, env, callee, args, keywords);
    var vals := UnionAll(Expanded(p, fn, args, keywords, env, depth, st).lists);
    forall fr, u | Admits(p, env, fr) && Value(p, Collect, fr, e, u).Some?
      ensures Fits(Solid(p, sc, PlaceOf(env), e), OrHole(vals), Value(p, Collect, fr, e, u).value)
    {
      CalleeIsTarget(p, sc, env, callee, fr);
      ExpandCovers(p, sc, fn, args, keywords, env, depth, st, fr, u, Solid(p, sc, PlaceOf(env), e));
      FitsMore(Solid(p, sc, PlaceOf(env), e), vals, OrHole(vals), Value(p, Collect, fr, e, u).value);
    }
  }

  /** The folds of the callee's returns under the bound environment. */
  function Expanded(p: Program, fn: Fn, args: seq<Expr>, keywords: seq<(string, Expr)>, env: Env, depth: nat,
                    st: State): FoldList
    requires depth <= MAX_DEPTH
  {
    var bound := BindCall(p, fn, args, keywords, env, depth, st);
    EvalList(p, ReturnsOf(fn.body), CalleeEnv(p, fn, args, keywords, env, bound.bindings), depth + 1, bound.st)
  }

  /** What the environment built for a callee knows of the values bound to its parameters. */
  ghost predicate BindingsSound(p: Program, fn: Fn, args: seq<Expr>, keywords: seq<(string, Expr)>, env: Env,
                                bindings: map<string, set<string>>) {
    var pairs := CallPairs(fn, args, keywords);
    var left := DefaultsLeft(fn.defaults, PairNames(pairs));
    && (Distinct(pairs) ==> PairsCovered(p, env, pairs, bindings))
    && (Distinct(left) ==> PairsCovered(p, DefaultsEnv(fn, env), left, bindings))
    && (forall x :: x in bindings <==> x in PairNames(pairs) || x in PairNames(left))
  }

  function DefaultsEnv(fn: Fn, env: Env): Env {
    Env(fn.modl, Some(fn), map[], env.stack + [fn.name], map[])
  }

  lemma DefaultsEnvGood(p: Program, sc: Scope, fn: Fn, env: Env)
    requires FoldableFn(p, sc, fn)
    ensures GoodEnv(p, sc, DefaultsEnv(fn, env))
  {}

  lemma {:induction false} BindSound(p: Program, sc: Scope, fn: Fn, args: seq<Expr>, keywords: seq<(string, Expr)>,
                                     env: Env, depth: nat, st: State)
    requires GoodScope(p, sc) && FoldableFn(p, sc, fn) && ArgsFoldable(p, sc, PlaceOf(env), args, keywords)
    requires GoodEnv(p, sc, env) && MemoSound(p, st)
    requires depth <= MAX_DEPTH && !BindCall(p, fn, args, keywords, env, depth, st).st.capped
    ensures MemoSound(p, BindCall(p, fn, args, keywords, env, depth, st).st)
    ensures BindingsSound(p, fn, args, keywords, env, BindCall(p, fn, args, keywords, env, depth, st).bindings)
    decreases Unmemoised(p, st), MAX_DEPTH + 1 - depth, 0, 0
  {
    hide Unmemoised, EvalPairs, PairsCovered, GoodEnv, CallPairs, MemoSound, DefaultsLeft, PairNames;
    DefaultsEnvGood(p, sc, fn, env);
    var pairs := CallPairs(fn, args, keywords);
    var left := DefaultsLeft(fn.defaults, PairNames(pairs));
    LeftFoldable(p, sc, fn, env, pairs);
    var outer := DefaultsEnv(fn, env);
    var given := EvalPairs(p, pairs, env, depth + 1, map[], st);
    var bound := EvalPairs(p, left, outer, depth + 1, given.bindings, given.st);
    assert bound == BindCall(p, fn, args, keywords, env, depth, st);
    CallPairsFoldable(p, sc, PlaceOf(env), fn, args, keywords);
    PairsSound(p, sc, pairs, env, depth + 1, map[], st);
    PairsSound(p, sc, left, outer, depth + 1, given.bindings, given.st);
    if Distinct(pairs) { SameBindings(p, env, pairs, given.bindings, bound.bindings); }
  }

  /** The defaults a call falls back on are foldable, and of other parameters than it binds. */
  lemma LeftFoldable(p: Program, sc: Scope, fn: Fn, env: Env, pairs: seq<(string, Expr)>)
    requires FoldableFn(p, sc, fn)
    ensures var left := DefaultsLeft(fn.defaults, PairNames(pairs));
      && PairsFoldable(p, sc, PlaceOf(DefaultsEnv(fn, env)), left)
      && (forall x | x in PairNames(pairs) :: x !in PairNames(left))
  {
    hide Foldable, Solid;
    var left := DefaultsLeft(fn.defaults, PairNames(pairs));
    forall i | 0 <= i < |left| ensures Inside(p, sc, fn, left[i].1) && SolidInside(p, sc, fn, left[i].1) {
      assert left[i] in fn.defaults;
    }
  }

  /** Covering only depends on what the pairs' own names are bound to. */
  lemma SameBindings(p: Program, env: Env, pairs: seq<(string, Expr)>, a: map<string, set<string>>, b: map<string,
                     set<string>>)
    requires PairsCovered(p, env, pairs, a)
    requires forall x | x in PairNames(pairs) && x in a :: x in b && b[x] == a[x]
    ensures PairsCovered(p, env, pairs, b)
  {}

  lemma {:induction false} ExpandSound(p: Program, sc: Scope, fn: Fn, args: seq<Expr>, keywords: seq<(string, Expr)>,
                                       env: Env, depth: nat, st: State)
    requires GoodScope(p, sc) && FoldableFn(p, sc, fn) && ArgsFoldable(p, sc, PlaceOf(env), args, keywords)
    requires GoodEnv(p, sc, env) && MemoSound(p, st)
    requires depth <= MAX_DEPTH && !Expanded(p, fn, args, keywords, env, depth, st).st.capped
    ensures MemoSound(p, Expanded(p, fn, args, keywords, env, depth, st).st)
    ensures BindingsSound(p, fn, args, keywords, env, BindCall(p, fn, args, keywords, env, depth, st).bindings)
    ensures var inner := CalleeEnv(p, fn, args, keywords, env, BindCall(p, fn, args, keywords, env, depth, st).bindings);
      forall i :: 0 <= i < |ReturnsOf(fn.body)| ==>
            CoversAll(p, sc, inner, ReturnsOf(fn.body)[i], Expanded(p, fn, args, keywords, env, depth, st).lists[i])
    decreases Unmemoised(p, st), MAX_DEPTH + 1 - depth, 0, 1
  {
    hide Unmemoised, EvalList, BindCall;
    var bound := BindCall(p, fn, args, keywords, env, depth, st);
    BindSound(p, sc, fn, args, keywords, env, depth, st);
    var inner := CalleeEnv(p, fn, args, keywords, env, bound.bindings);
    CalleeEnvGood(p, sc, fn, args, keywords, env, bound.bindings);
    ReturnsInside(p, sc, fn);
    ListSound(p, sc, ReturnsOf(fn.body), inner, depth + 1, bound.st);
  }

  lemma ReturnsInside(p: Program, sc: Scope, fn: Fn)
    requires FoldableFn(p, sc, fn)
    ensures forall i :: 0 <= i < |ReturnsOf(fn.body)| ==> Foldable(p, sc, Place(fn.modl, Some(fn)), ReturnsOf(fn.body)[i])
  {
    forall i | 0 <= i < |ReturnsOf(fn.body)| ensures Inside(p, sc, fn, ReturnsOf(fn.body)[i]) {}
  }

  lemma CalleeEnvGood(p: Program, sc: Scope, fn: Fn, args: seq<Expr>, keywords: seq<(string, Expr)>, env: Env,
                      bindings: map<string, set<string>>)
    requires FoldableFn(p, sc, fn) && BindingsSound(p, fn, args, keywords, env, bindings)
    requires GoodScope(p, sc) && GoodEnv(p, sc, env) && ArgsFoldable(p, sc, PlaceOf(env), args, keywords)
    ensures GoodEnv(p, sc, CalleeEnv(p, fn, args, keywords, env, bindings))
  {
    hide GoodScope, Foldable, Solid, PairsCovered, ArgsFoldable, PairsFoldable, CallPairs, DefaultsLeft, Callables;
    var pairs := CallPairs(fn, args, keywords);
    var left := DefaultsLeft(fn.defaults, PairNames(pairs));
    CallPairsFoldable(p, sc, PlaceOf(env), fn, args, keywords);
    CallablesAreSolid(p, sc, env, pairs);
    forall x | x in PairNames(pairs) ensures IsParam(fn, x) {
      var i :| 0 <= i < |pairs| && pairs[i].0 == x;
      PairIsParam(fn, args, keywords, i);
    }
    forall x | x in PairNames(left) ensures IsParam(fn, x) {
      var i :| 0 <= i < |left| && left[i].0 == x;
      assert left[i] in fn.defaults;
    }
  }

  lemma {:induction false} CallablesAreSolid(p: Program, sc: Scope, env: Env, pairs: seq<(string, Expr)>)
    requires GoodEnv(p, sc, env) && PairsFoldable(p, sc, PlaceOf(env), pairs)
    ensures Callables(p, env, pairs).Keys <= PairNames(pairs)
    ensures forall x | x in Callables(p, env, pairs) && Callables(p, env, pairs)[x] in p.functions ::
      Definition(Callables(p, env, pairs)[x]) in sc.solid
    decreases pairs
  {
    if pairs == [] {
    } else {
      CallablesAreSolid(p, sc, env, pairs[1..]);
      PairNamesCons(pairs);
      if FunctionFor(p, env.modl, pairs[0].1).Some? { ReferenceSolid(p, sc, env, pairs[0].1); }
      hide Foldable, Solid;
    }
  }

  lemma ReferenceSolid(p: Program, sc: Scope, env: Env, e: Expr)
    requires Foldable(p, sc, PlaceOf(env), e) && Solid(p, sc, PlaceOf(env), e) && FunctionFor(p, env.modl, e).Some?
    ensures Definition(FunctionFor(p, env.modl, e).value) in sc.solid
  {}

  lemma ExpandCovers(p: Program, sc: Scope, fn: Fn, args: seq<Expr>, keywords: seq<(string, Expr)>,
                     env: Env, depth: nat, st: State, fr: Frame, u: Tr, solid: bool)
    requires GoodScope(p, sc) && FoldableFn(p, sc, fn) && ArgsFoldable(p, sc, PlaceOf(env), args, keywords)
    requires solid ==> SolidFn(p, sc, fn)
    requires GoodEnv(p, sc, env) && MemoSound(p, st) && Admits(p, env, fr)
    requires depth <= MAX_DEPTH && !Expanded(p, fn, args, keywords, env, depth, st).st.capped
    requires |u.kids| >= 3 && Arguments(p, Collect, fr, fn, args, keywords, u).Some?
    requires var callee := Frame(fn.modl, Some(fn), Arguments(p, Collect, fr, fn, args, keywords, u).value);
      CallBody(p, Collect, callee, u.kids[2]).Some?
    ensures var callee := Frame(fn.modl, Some(fn), Arguments(p, Collect, fr, fn, args, keywords, u).value);
      Fits(solid, UnionAll(Expanded(p, fn, args, keywords, env, depth, st).lists),
           CallBody(p, Collect, callee, u.kids[2]).value)
    decreases Unmemoised(p, st), MAX_DEPTH + 1 - depth, 0, 2
  {
    hide Unmemoised, Foldable, Solid, GoodScope, GoodEnv;
    var bound := BindCall(p, fn, args, keywords, env, depth, st);
    var inner := CalleeEnv(p, fn, args, keywords, env, bound.bindings);
    var callee := Frame(fn.modl, Some(fn), Arguments(p, Collect, fr, fn, args, keywords, u).value);
    ExpandSound(p, sc, fn, args, keywords, env, depth, st);
    CalleeAdmitted(p, sc, fn, args, keywords, env, bound.bindings, fr, u);
    var i := u.kids[2].pick;
    var lists := Expanded(p, fn, args, keywords, env, depth, st).lists;
    if i < |ReturnsOf(fn.body)| {
      var e := ReturnsOf(fn.body)[i];
      var v := Value(p, Collect, callee, e, u.kids[2].kids[0]).value;
      assert CoversAll(p, sc, inner, e, lists[i]);
      assert Fits(Solid(p, sc, PlaceOf(inner), e), lists[i], v);
      assert solid ==> SolidInside(p, sc, fn, e);
      UnionAllHas(lists, i);
      FitsMore(solid, lists[i], UnionAll(lists), v);
    }
  }

  /** The frame a call creates is one of those the bound environment stands for. */
  lemma CalleeAdmitted(p: Program, sc: Scope, fn: Fn, args: seq<Expr>, keywords: seq<(string, Expr)>, env: Env,
                       bindings: map<string, set<string>>, fr: Frame, u: Tr)
    requires GoodScope(p, sc) && FoldableFn(p, sc, fn) && GoodEnv(p, sc, env) && Admits(p, env, fr)
    requires ArgsFoldable(p, sc, PlaceOf(env), args, keywords)
    requires |u.kids| >= 3 && Arguments(p, Collect, fr, fn, args, keywords, u).Some?
    requires BindingsSound(p, fn, args, keywords, env, bindings)
    ensures Admits(p, CalleeEnv(p, fn, args, keywords, env, bindings),
                   Frame(fn.modl, Some(fn), Arguments(p, Collect, fr, fn, args, keywords, u).value))
  {
    hide Foldable, Solid, GoodScope, FoldableFn, GoodEnv, PairsFoldable, ArgsFoldable;
    var pairs := CallPairs(fn, args, keywords);
    var left := DefaultsLeft(fn.defaults, PairNames(pairs));
    var given := PairValues(p, Collect, fr, pairs, u.kids[0].kids);
    var filled := PairValues(p, Collect, ModuleFrame(fn.modl), left, u.kids[1].kids);
    assert given.Some? && filled.Some? && Distinct(pairs);
    var vars := filled.value + given.value;
    assert Arguments(p, Collect, fr, fn, args, keywords, u) == Some(vars);
    DefaultsCovered(p, sc, fn, left, env, bindings, u.kids[1].kids, pairs);
    GivenCovered(p, env, pairs, bindings, fr, u.kids[0].kids);
    CallPairsFoldable(p, sc, PlaceOf(env), fn, args, keywords);
    hide PairValues, Arguments, PairsCovered;
    forall x | x in Callables(p, env, pairs) ensures x in vars && vars[x] == VFun(Callables(p, env, pairs)[x]) {
      CallablesSound(p, sc, env, pairs, fr, u.kids[0].kids, x);
    }
    forall x | x in vars && IsParam(fn, x) ensures x in bindings && Covers(bindings[x], vars[x]) {
      if x in PairNames(pairs) {
        assert vars[x] == given.value[x];
      } else {
        assert vars[x] == filled.value[x];
      }
    }
  }

  lemma GivenCovered(p: Program, env: Env, pairs: seq<(string, Expr)>, bindings: map<string, set<string>>,
                     fr: Frame, us: seq<Tr>)
    requires PairsCovered(p, env, pairs, bindings) && Admits(p, env, fr)
    requires PairValues(p, Collect, fr, pairs, us).Some?
    ensures forall x | x in PairNames(pairs) ::
      x in bindings && Covers(bindings[x], PairValues(p, Collect, fr, pairs, us).value[x])
  {}

  /** The defaults, evaluated in the defining module, are covered by the folds the folder
      computed for them inside the function. */
  lemma DefaultsCovered(p: Program, sc: Scope, fn: Fn, left: seq<(string, Expr)>, env: Env, bindings: map<string, set<string>>,
                        us: seq<Tr>, pairs: seq<(string, Expr)>)
    requires GoodScope(p, sc) && FoldableFn(p, sc, fn)
    requires left == DefaultsLeft(fn.defaults, PairNames(pairs))
    requires Distinct(left) ==> PairsCovered(p, DefaultsEnv(fn, env), left, bindings)
    requires PairValues(p, Collect, ModuleFrame(fn.modl), left, us).Some?
    ensures forall x | x in PairNames(left) ::
      x in bindings && Covers(bindings[x], PairValues(p, Collect, ModuleFrame(fn.modl), left, us).value[x])
  {
    DefaultsDistinct(fn.defaults, PairNames(pairs));
    var inside := Frame(fn.modl, Some(fn), map[]);
    forall i | 0 <= i < |left| ensures Avoids(fn, left[i].1) {
      assert left[i] in fn.defaults;
    }
    OutsidePairs(p, fn, left, us);
    assert Admits(p, DefaultsEnv(fn, env), inside);
    GivenCovered(p, DefaultsEnv(fn, env), left, bindings, inside, us);
  }

  lemma {:induction false} DefaultsDistinct(defaults: seq<(string, Expr)>, bound: set<string>)
    requires Distinct(defaults)
    ensures Distinct(DefaultsLeft(defaults, bound))
    decreases defaults
  {
    if defaults == [] {
    } else {
      var rest := defaults[1..];
      assert forall i, j :: 0 <= i < j < |rest| ==> rest[i].0 != rest[j].0 by {
        forall i, j | 0 <= i < j < |rest| ensures rest[i].0 != rest[j].0 {
          assert defaults[i + 1].0 != defaults[j + 1].0;
        }
      }
      DefaultsDistinct(rest, bound);
      var tail := DefaultsLeft(rest, bound);
      forall j | 0 <= j < |tail| ensures tail[j].0 != defaults[0].0 {
        var k :| 0 <= k < |rest| && rest[k] == tail[j];
        assert defaults[k + 1].0 != defaults[0].0;
      }
    }
  }
}
