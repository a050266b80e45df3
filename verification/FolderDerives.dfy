/** What an expression can take, construct by construct: the values it derives are given exactly by
    those its parts derive. */
module FolderDerives {
  import opened Options
  import opened PySyntax
  import opened PySemantics
  import opened Provenance
  import opened Folder
  import opened FolderSound

  /** vals are the strings e can take in the frame, which are all the values it can take. */
  ghost predicate Exact(p: Program, fr: Frame, e: Expr, vals: set<string>) {
    && vals != {}
    && forall v :: Derives(p, fr, e, v) <==> v.VStr? && v.s in vals
  }

  ghost predicate AllExact(p: Program, fr: Frame, es: seq<Expr>, lists: seq<set<string>>) {
    |lists| == |es| && forall i :: 0 <= i < |es| ==> Exact(p, fr, es[i], lists[i])
  }

  ghost predicate One(vals: set<string>) {
    exists s :: vals == {s}
  }

  // -- products ----------------------------------------------------------------------------------

  /** s is one choice from each set, concatenated. */
  ghost predicate Joins(lists: seq<set<string>>, s: string) {
    if lists == [] then s == ""
    else exists a, b :: a in lists[0] && Joins(lists[1..], b) && s == a + b
  }

  lemma {:induction false} CrossExact(xs: seq<string>, rest: seq<string>, s: string)
    ensures s in Cross(xs, rest) <==> exists a, b :: a in xs && b in rest && s == a + b
  {
    if xs == [] {
    } else {
      CrossExact(xs[1..], rest, s);
      var here := Prefixed(xs[0], rest);
      if s in here {
        var i :| 0 <= i < |here| && here[i] == s;
        assert xs[0] in xs && rest[i] in rest && s == xs[0] + rest[i];
      }
      if a, b :| a in xs && b in rest && s == a + b {
        if a == xs[0] {
          var i :| 0 <= i < |rest| && rest[i] == b;
          assert here[i] == s;
        } else {
          assert a in xs[1..];
        }
      }
    }
  }

  lemma {:induction false} CombosExact(p: Program, lists: seq<set<string>>, s: string)
    requires ListsSets(p)
    ensures s in Combos(Listed(p, lists)) <==> Joins(lists, s)
    decreases |lists|
  {
    if lists == [] {
    } else {
      var listed := Listed(p, lists);
      assert listed[1..] == Listed(p, lists[1..]);
      var xs, rest := listed[0], Combos(listed[1..]);
      CrossExact(xs, rest, s);
      assert SameElements(xs, lists[0]);
      forall b ensures b in rest <==> Joins(lists[1..], b) { CombosExact(p, lists[1..], b); }
      if s in Combos(listed) {
        var a, b :| a in xs && b in rest && s == a + b;
        assert a in lists[0] && Joins(lists[1..], b);
      }
      if Joins(lists, s) {
        var a, b :| a in lists[0] && Joins(lists[1..], b) && s == a + b;
        assert a in xs && b in rest;
      }
    }
  }

  lemma {:induction false} SomeJoin(lists: seq<set<string>>) returns (s: string)
    requires forall i :: 0 <= i < |lists| ==> lists[i] != {}
    ensures Joins(lists, s)
    ensures (forall i :: 0 <= i < |lists| ==> One(lists[i])) ==> forall x :: Joins(lists, x) ==> x == s
    decreases |lists|
  {
    if lists == [] {
      s := "";
    } else {
      var a :| a in lists[0];
      var b := SomeJoin(lists[1..]);
      s := a + b;
    }
  }

  /** An uncut product is exactly the concatenations, and a single one when each factor is. */
  lemma ProductExact(p: Program, lists: seq<set<string>>, st: State)
    requires ListsSets(p)
    requires forall i :: 0 <= i < |lists| ==> lists[i] != {}
    requires !Product(p, lists, st).st.capped
    ensures Product(p, lists, st).vals != {}
    ensures forall s :: s in Product(p, lists, st).vals <==> Joins(lists, s)
    ensures (forall i :: 0 <= i < |lists| ==> One(lists[i])) ==> One(Product(p, lists, st).vals)
  {
    var some := SomeJoin(lists);
    var vals := Product(p, lists, st).vals;
    hide Combos, Joins, Listed, Product, One;
    CombosExact(p, lists, some);
    forall s ensures s in vals <==> Joins(lists, s) {
      CombosExact(p, lists, s);
      UncutProduct(p, lists, st, s);
    }
    assert some in vals;
    OneIfAlike(vals, some);
  }

  lemma OneIfAlike(vals: set<string>, s: string)
    requires s in vals
    ensures (forall x | x in vals :: x == s) ==> One(vals)
  {
    if forall x | x in vals :: x == s { assert vals == {s}; }
  }

  lemma UncutProduct(p: Program, lists: seq<set<string>>, st: State, s: string)
    requires Combos(Listed(p, lists)) != [] && !Product(p, lists, st).st.capped
    ensures s in Product(p, lists, st).vals <==> s in Combos(Listed(p, lists))
  {
    hide Combos, Listed;
    var combos := Combos(Listed(p, lists));
    var all := set x | x in combos;
    assert combos[0] in all;
    assert Product(p, lists, st).vals == OrHole(all);
  }

  // -- unions ------------------------------------------------------------------------------------

  lemma {:induction false} UnionAllMember(lists: seq<set<string>>, s: string)
    ensures s in UnionAll(lists) <==> exists i :: 0 <= i < |lists| && s in lists[i]
    decreases |lists|
  {
    if lists == [] {
    } else {
      UnionAllMember(lists[1..], s);
      if i :| 0 <= i < |lists| && s in lists[i] && i > 0 { assert s in lists[1..][i - 1]; }
      if i :| 0 <= i < |lists[1..]| && s in lists[1..][i] { assert s in lists[i + 1]; }
    }
  }

  /** An expression that takes what some of es take takes exactly the union. */
  lemma UnionExact(p: Program, fr: Frame, es: seq<Expr>, lists: seq<set<string>>, here: Frame, e: Expr)
    requires AllExact(p, fr, es, lists) && es != []
    requires forall v :: Derives(p, here, e, v) <==> DerivesAny(p, fr, es, v)
    ensures Exact(p, here, e, UnionAll(lists))
    ensures |es| == 1 ==> UnionAll(lists) == lists[0]
  {
    hide Derives, UnionAll;
    assert Exact(p, fr, es[0], lists[0]);
    var some :| some in lists[0];
    UnionAllMember(lists, some);
    forall v ensures DerivesAny(p, fr, es, v) <==> v.VStr? && v.s in UnionAll(lists) {
      if v.VStr? { UnionAllMember(lists, v.s); }
      if i :| 0 <= i < |es| && Derives(p, fr, es[i], v) { assert Exact(p, fr, es[i], lists[i]); }
      if v.VStr? && v.s in UnionAll(lists) {
        var i :| 0 <= i < |lists| && v.s in lists[i];
        assert Exact(p, fr, es[i], lists[i]);
      }
    }
    if |es| == 1 { OnlyUnion(lists); }
  }

  lemma OnlyUnion(lists: seq<set<string>>)
    requires |lists| == 1
    ensures UnionAll(lists) == lists[0]
  {
    assert lists[1..] == [];
  }

  // -- one lemma per construct -------------------------------------------------------------------

  lemma StrExact(p: Program, fr: Frame, s: string)
    ensures Exact(p, fr, Str(s), {s})
  {
    SomeTrace(p, fr, Str(s), Tr(0, VOther, map[], []), VStr(s));
  }

  lemma PlusExact(p: Program, fr: Frame, l: Expr, r: Expr, a: set<string>, b: set<string>, st: State)
    requires ListsSets(p)
    requires Exact(p, fr, l, a) && Exact(p, fr, r, b) && !Product(p, [a, b], st).st.capped
    ensures Exact(p, fr, Plus(l, r), Product(p, [a, b], st).vals)
    ensures One(a) && One(b) ==> One(Product(p, [a, b], st).vals)
  {
    ProductExact(p, [a, b], st);
    hide Product, Joins;
    var vals := Product(p, [a, b], st).vals;
    forall v ensures Derives(p, fr, Plus(l, r), v) <==> v.VStr? && v.s in vals {
      PlusDerives(p, fr, l, r, a, b, v);
      if v.VStr? { JoinsTwo(a, b, v.s); }
    }
  }

  /** A sum takes exactly the sums of what its operands take. */
  lemma PlusDerives(p: Program, fr: Frame, l: Expr, r: Expr, a: set<string>, b: set<string>, v: Val)
    requires Exact(p, fr, l, a) && Exact(p, fr, r, b)
    ensures Derives(p, fr, Plus(l, r), v) <==> v.VStr? && exists x, y :: x in a && y in b && v.s == x + y
  {
    if Derives(p, fr, Plus(l, r), v) {
      var u :| Value(p, Collect, fr, Plus(l, r), u) == Some(v);
      var x, y := Value(p, Collect, fr, l, u.kids[0]).value, Value(p, Collect, fr, r, u.kids[1]).value;
      SomeTrace(p, fr, l, u.kids[0], x);
      SomeTrace(p, fr, r, u.kids[1], y);
      assert x.s in a && y.s in b && v == VStr(x.s + y.s);
    }
    if v.VStr? {
      if x, y :| x in a && y in b && v.s == x + y {
        assert Derives(p, fr, l, VStr(x)) && Derives(p, fr, r, VStr(y));
        var u1 :| Value(p, Collect, fr, l, u1) == Some(VStr(x));
        var u2 :| Value(p, Collect, fr, r, u2) == Some(VStr(y));
        SomeTrace(p, fr, Plus(l, r), Tr(0, VOther, map[], [u1, u2]), v);
      }
    }
  }

  lemma JoinsTwo(a: set<string>, b: set<string>, s: string)
    ensures Joins([a, b], s) <==> exists x, y :: x in a && y in b && s == x + y
  {
    forall y ensures Joins([b], y) <==> y in b {
      assert [b][1..] == [];
      if y in b { assert Joins([b][1..], "") && y == y + ""; }
      if Joins([b], y) {
        var c, d :| c in [b][0] && Joins([b][1..], d) && y == c + d;
        assert y == c;
      }
    }
    assert [a, b][1..] == [b];
    if Joins([a, b], s) {
      var x, y :| x in [a, b][0] && Joins([a, b][1..], y) && s == x + y;
      assert x in a && y in b;
    }
    if x, y :| x in a && y in b && s == x + y {
      assert x in [a, b][0] && Joins([a, b][1..], y);
    }
  }

  /** A conditional takes what either branch takes. */
  lemma CondDerives(p: Program, fr: Frame, thn: Expr, els: Expr, v: Val)
    ensures Derives(p, fr, Cond(thn, els), v) <==> Derives(p, fr, thn, v) || Derives(p, fr, els, v)
  {
    if Derives(p, fr, Cond(thn, els), v) {
      var u :| Value(p, Collect, fr, Cond(thn, els), u) == Some(v);
      SomeTrace(p, fr, if u.pick == 0 then thn else els, u.kids[0], v);
    }
    if Derives(p, fr, thn, v) || Derives(p, fr, els, v) {
      var first := Derives(p, fr, thn, v);
      var u :| Value(p, Collect, fr, if first then thn else els, u) == Some(v);
      SomeTrace(p, fr, Cond(thn, els), Tr(if first then 0 else 1, VOther, map[], [u]), v);
    }
  }

  lemma CondExact(p: Program, fr: Frame, thn: Expr, els: Expr, a: set<string>, b: set<string>)
    requires Exact(p, fr, thn, a) && Exact(p, fr, els, b)
    ensures Exact(p, fr, Cond(thn, els), a + b)
  {
    hide Derives;
    forall v ensures Derives(p, fr, Cond(thn, els), v) <==> v.VStr? && v.s in a + b {
      CondDerives(p, fr, thn, els, v);
    }
  }

  /** An and/or takes what any of its operands takes. */
  lemma BoolDerives(p: Program, fr: Frame, values: seq<Expr>, v: Val)
    ensures Derives(p, fr, Bool(values), v) <==> DerivesAny(p, fr, values, v)
  {
    if Derives(p, fr, Bool(values), v) {
      var u :| Value(p, Collect, fr, Bool(values), u) == Some(v);
      SomeTrace(p, fr, values[u.pick], u.kids[0], v);
    }
    if DerivesAny(p, fr, values, v) {
      var i :| 0 <= i < |values| && Derives(p, fr, values[i], v);
      var u :| Value(p, Collect, fr, values[i], u) == Some(v);
      SomeTrace(p, fr, Bool(values), Tr(i, VOther, map[], [u]), v);
    }
  }

  /** A plain local takes what any of its assignments takes. */
  lemma LocalDerives(p: Program, fr: Frame, id: string, v: Val)
    requires FrameLocal(fr, id) && !IsParam(fr.fn.value, id) && Plain(fr.fn.value, id)
    ensures Derives(p, fr, Name(id), v) <==> DerivesAny(p, fr, AssignmentsTo(fr.fn.value.body, id), v)
  {
    hide AssignmentsTo;
    var bound := AssignmentsTo(fr.fn.value.body, id);
    forall u ensures Value(p, Collect, fr, Name(id), u) == NameValue(p, Collect, fr, id, u) {}
    if Derives(p, fr, Name(id), v) {
      var u :| NameValue(p, Collect, fr, id, u) == Some(v);
      SomeTrace(p, fr, bound[u.pick], u.kids[0], v);
    }
    if DerivesAny(p, fr, bound, v) {
      var i :| 0 <= i < |bound| && Derives(p, fr, bound[i], v);
      var u :| Value(p, Collect, fr, bound[i], u) == Some(v);
      var t := Tr(i, VOther, map[], [u]);
      assert NameValue(p, Collect, fr, id, t) == Some(v);
      SomeTrace(p, fr, Name(id), t, v);
    }
  }

  /** A plain parameter takes its argument. */
  lemma ParamDerives(p: Program, fr: Frame, id: string, v: Val)
    requires FrameLocal(fr, id) && IsParam(fr.fn.value, id) && Plain(fr.fn.value, id) && id in fr.vars
    ensures Derives(p, fr, Name(id), v) <==> v == fr.vars[id]
  {
    hide AssignmentsTo;
    forall u ensures Value(p, Collect, fr, Name(id), u) == Some(fr.vars[id]) {
      assert Value(p, Collect, fr, Name(id), u) == NameValue(p, Collect, fr, id, u);
    }
    if v == fr.vars[id] { SomeTrace(p, fr, Name(id), Tr(0, VOther, map[], []), v); }
  }

  /** The definition a name or attribute refers to, unless it is local to the frame. */
  function Reference(p: Program, fr: Frame, e: Expr): Option<Key> {
    match e
    case Name(id) => if FrameLocal(fr, id) then None else Resolve(p, fr.modl, id)
    case Attr(alias, attr) => if FrameLocal(fr, alias) then None else ResolveAttr(p, fr.modl, alias, attr)
    case _ => None
  }

  lemma ReferenceValue(p: Program, fr: Frame, e: Expr, u: Tr)
    requires Reference(p, fr, e).Some?
    ensures Value(p, Collect, fr, e, u) == GlobalValue(p, Collect, Reference(p, fr, e), u)
  {
    hide IsLocal;
    if e.Name? { assert Value(p, Collect, fr, e, u) == NameValue(p, Collect, fr, e.id, u); }
  }

  /** A name or attribute that refers to a constant takes what the constant takes. */
  lemma ConstantDerives(p: Program, fr: Frame, e: Expr, key: Key, v: Val)
    requires Reference(p, fr, e) == Some(key) && key in p.constants
    ensures Derives(p, fr, e, v) <==> Derives(p, ModuleFrame(key.0), p.constants[key], v)
  {
    hide Reference;
    var there := ModuleFrame(key.0);
    if Derives(p, fr, e, v) {
      var u :| Value(p, Collect, fr, e, u) == Some(v);
      ReferenceValue(p, fr, e, u);
      SomeTrace(p, there, p.constants[key], u.kids[0], v);
    }
    if Derives(p, there, p.constants[key], v) {
      var u :| Value(p, Collect, there, p.constants[key], u) == Some(v);
      var t := Tr(0, VOther, map[], [u]);
      ReferenceValue(p, fr, e, t);
      SomeTrace(p, fr, e, t, v);
    }
  }

  /** One that refers to a function takes that function. */
  lemma FunctionDerives(p: Program, fr: Frame, e: Expr, key: Key, v: Val)
    requires Reference(p, fr, e) == Some(key) && key !in p.constants && key in p.functions
    ensures Derives(p, fr, e, v) <==> v == VFun(key)
  {
    hide Reference;
    forall u ensures Value(p, Collect, fr, e, u) == Some(VFun(key)) { ReferenceValue(p, fr, e, u); }
    if v == VFun(key) { SomeTrace(p, fr, e, Tr(0, VOther, map[], []), v); }
  }

  /** A lookup takes what an entry takes that the dictionary may hold under the key. */
  lemma IndexDerives(p: Program, fr: Frame, base: string, key: Option<string>, v: Val)
    requires !FrameLocal(fr, base) && IsDict(p, Resolve(p, fr.modl, base))
    ensures var ref := Resolve(p, fr.modl, base).value;
      var entries := p.constants[ref].entries;
      Derives(p, fr, Index(base, key), v) <==>
      exists i :: 0 <= i < |entries| && MayHit(entries, i, key) && Derives(p, ModuleFrame(ref.0), entries[i].1, v)
  {
    hide MayHit;
    var ref := Resolve(p, fr.modl, base).value;
    var entries, there := p.constants[ref].entries, ModuleFrame(ref.0);
    if Derives(p, fr, Index(base, key), v) {
      var u :| Value(p, Collect, fr, Index(base, key), u) == Some(v);
      MayHitInRange(entries, u.pick, key);
      SomeTrace(p, there, entries[u.pick].1, u.kids[0], v);
    }
    if i :| 0 <= i < |entries| && MayHit(entries, i, key) && Derives(p, there, entries[i].1, v) {
      var u :| Value(p, Collect, there, entries[i].1, u) == Some(v);
      SomeTrace(p, fr, Index(base, key), Tr(i, VOther, map[], [u]), v);
    }
  }

  lemma MayHitInRange(entries: seq<(Option<string>, Expr)>, i: nat, key: Option<string>)
    ensures MayHit(entries, i, key) ==> i < |entries|
  {}

  // -- f-strings ---------------------------------------------------------------------------------

  /** What one part of an f-string can contribute. */
  ghost predicate PartExact(p: Program, fr: Frame, part: Part, vals: set<string>) {
    match part
    case Text(s) => vals == {s}
    case Field(e, _) => Exact(p, fr, e, vals)
  }

  ghost predicate TextDerives(p: Program, fr: Frame, parts: seq<Part>, s: string) {
    exists us :: PartsText(p, Collect, fr, parts, us) == Some(s)
  }

  lemma {:induction false} PartsJoin(p: Program, fr: Frame, parts: seq<Part>, lists: seq<set<string>>, s: string)
    requires |lists| == |parts| && forall i :: 0 <= i < |parts| ==> PartExact(p, fr, parts[i], lists[i])
    requires forall i :: 0 <= i < |parts| && parts[i].Field? ==> !parts[i].spec
    ensures TextDerives(p, fr, parts, s) <==> Joins(lists, s)
    decreases |parts|
  {
    if parts == [] {
      assert PartsText(p, Collect, fr, parts, []) == Some("");
    } else {
      forall b ensures TextDerives(p, fr, parts[1..], b) <==> Joins(lists[1..], b) {
        PartsJoin(p, fr, parts[1..], lists[1..], b);
      }
      hide PartExact, PartsText, Value;
      if TextDerives(p, fr, parts, s) {
        var a, b := TextSplits(p, fr, parts, lists[0], s);
      }
      if Joins(lists, s) {
        var a, b :| a in lists[0] && Joins(lists[1..], b) && s == a + b;
        TextExtends(p, fr, parts, lists[0], a, b);
      }
    }
  }

  /** What an f-string takes is a choice of its first part, then a text of the rest. */
  lemma TextSplits(p: Program, fr: Frame, parts: seq<Part>, vals: set<string>, s: string) returns (a: string, b: string)
    requires parts != [] && PartExact(p, fr, parts[0], vals) && (parts[0].Field? ==> !parts[0].spec)
    requires TextDerives(p, fr, parts, s)
    ensures a in vals && TextDerives(p, fr, parts[1..], b) && s == a + b
  {
    hide Value;
    var us: seq<Tr> :| PartsText(p, Collect, fr, parts, us) == Some(s);
    b := PartsText(p, Collect, fr, parts[1..], us[1..]).value;
    if parts[0].Field? {
      var x := Value(p, Collect, fr, parts[0].expr, us[0].kids[0]).value;
      SomeTrace(p, fr, parts[0].expr, us[0].kids[0], x);
      a := x.s;
    } else {
      a := parts[0].text;
    }
  }

  lemma TextExtends(p: Program, fr: Frame, parts: seq<Part>, vals: set<string>, a: string, b: string)
    requires parts != [] && PartExact(p, fr, parts[0], vals) && (parts[0].Field? ==> !parts[0].spec)
    requires a in vals && TextDerives(p, fr, parts[1..], b)
    ensures TextDerives(p, fr, parts, a + b)
  {
    hide Value;
    var us: seq<Tr> :| PartsText(p, Collect, fr, parts[1..], us) == Some(b);
    var head := Tr(0, VOther, map[], []);
    if parts[0].Field? {
      assert Derives(p, fr, parts[0].expr, VStr(a));
      var u :| Value(p, Collect, fr, parts[0].expr, u) == Some(VStr(a));
      head := Tr(0, VOther, map[], [u]);
    }
    assert ([head] + us)[1..] == us;
    assert PartsText(p, Collect, fr, parts, [head] + us) == Some(a + b);
  }

  lemma FStringExact(p: Program, fr: Frame, parts: seq<Part>, lists: seq<set<string>>, st: State)
    requires ListsSets(p)
    requires |lists| == |parts| && forall i :: 0 <= i < |parts| ==> PartExact(p, fr, parts[i], lists[i])
    requires forall i :: 0 <= i < |parts| && parts[i].Field? ==> !parts[i].spec
    requires !Product(p, lists, st).st.capped
    ensures Exact(p, fr, FString(parts), Product(p, lists, st).vals)
    ensures (forall i :: 0 <= i < |lists| ==> One(lists[i])) ==> One(Product(p, lists, st).vals)
  {
    forall i | 0 <= i < |lists| ensures lists[i] != {} { assert PartExact(p, fr, parts[i], lists[i]); }
    ProductExact(p, lists, st);
    hide Product, Joins, PartExact;
    forall v ensures Derives(p, fr, FString(parts), v) <==> v.VStr? && v.s in Product(p, lists, st).vals {
      if v.VStr? { PartsJoin(p, fr, parts, lists, v.s); }
      if Derives(p, fr, FString(parts), v) {
        var u :| Value(p, Collect, fr, FString(parts), u) == Some(v);
        assert PartsText(p, Collect, fr, parts, u.kids) == Some(v.s);
        assert TextDerives(p, fr, parts, v.s);
      }
      if v.VStr? && v.s in Product(p, lists, st).vals {
        var us: seq<Tr> :| PartsText(p, Collect, fr, parts, us) == Some(v.s);
        SomeTrace(p, fr, FString(parts), Tr(0, VOther, map[], us), v);
      }
    }
  }

  // -- calls -------------------------------------------------------------------------------------

  /** Evaluating the pairs binds exactly vars, however it goes. */
  ghost predicate Binds(p: Program, fr: Frame, pairs: seq<(string, Expr)>, vars: map<string, Val>) {
    && (exists us :: PairValues(p, Collect, fr, pairs, us) == Some(vars))
    && forall us :: PairValues(p, Collect, fr, pairs, us).Some? ==> PairValues(p, Collect, fr, pairs, us) == Some(vars)
  }

  lemma BindsNothing(p: Program, fr: Frame)
    ensures Binds(p, fr, [], map[])
  {
    assert PairValues(p, Collect, fr, [], []) == Some(map[]);
  }

  /** One more pair, whose expression takes one value. */
  lemma BindsOneMore(p: Program, fr: Frame, pairs: seq<(string, Expr)>, v: Val, vars: map<string, Val>)
    requires pairs != [] && Binds(p, fr, pairs[1..], vars)
    requires forall x :: Derives(p, fr, pairs[0].1, x) <==> x == v
    ensures Binds(p, fr, pairs, vars[pairs[0].0 := v])
  {
    hide Value;
    var us: seq<Tr> :| PairValues(p, Collect, fr, pairs[1..], us) == Some(vars);
    assert Derives(p, fr, pairs[0].1, v);
    var u :| Value(p, Collect, fr, pairs[0].1, u) == Some(v);
    assert ([u] + us)[1..] == us;
    assert PairValues(p, Collect, fr, pairs, [u] + us) == Some(vars[pairs[0].0 := v]);
    forall ts | PairValues(p, Collect, fr, pairs, ts).Some?
      ensures PairValues(p, Collect, fr, pairs, ts) == Some(vars[pairs[0].0 := v])
    {
      SomeTrace(p, fr, pairs[0].1, ts[0], Value(p, Collect, fr, pairs[0].1, ts[0]).value);
    }
  }

  /** Every parameter is bound, by the call or by a default, and nothing else is. */
  predicate FullyBound(fn: Fn, vars: map<string, Val>) {
    (forall x | x in fn.params + fn.kwonly :: x in vars) && forall x | x in vars :: IsParam(fn, x)
  }

  lemma ArgumentsBind(p: Program, fr: Frame, fn: Fn, args: seq<Expr>, keywords: seq<(string, Expr)>,
                      given: map<string, Val>, filled: map<string, Val>, t: Tr)
    requires AcceptedCall(fn, args, keywords) && FullyBound(fn, filled + given) && |t.kids| >= 2
    requires Binds(p, fr, CallPairs(fn, args, keywords), given)
    requires Binds(p, ModuleFrame(fn.modl), DefaultsLeft(fn.defaults, PairNames(CallPairs(fn, args, keywords))), filled)
    ensures var vars := Arguments(p, Collect, fr, fn, args, keywords, t); vars.Some? ==> vars == Some(filled + given)
    ensures var pairs := CallPairs(fn, args, keywords);
      PairValues(p, Collect, fr, pairs, t.kids[0].kids).Some?
      && PairValues(p, Collect, ModuleFrame(fn.modl), DefaultsLeft(fn.defaults, PairNames(pairs)), t.kids[1].kids).Some?
      ==> Arguments(p, Collect, fr, fn, args, keywords, t).Some?
  {
    hide AcceptedCall, CallPairs, DefaultsLeft, PairNames, PairValues;
  }

  /** An accepted call of a helper whose arguments take one value each takes what the helper's returns
      take, if the helper returns a value on every path. */
  lemma CallDerives(p: Program, fr: Frame, callee: Expr, args: seq<Expr>, keywords: seq<(string, Expr)>, fn: Fn,
                    given: map<string, Val>, filled: map<string, Val>, v: Val)
    requires Callee(p, fr, callee) == Some(fn) && AcceptedCall(fn, args, keywords) && !MayReturnNone(fn)
    requires Binds(p, fr, CallPairs(fn, args, keywords), given) && FullyBound(fn, filled + given)
    requires Binds(p, ModuleFrame(fn.modl), DefaultsLeft(fn.defaults, PairNames(CallPairs(fn, args, keywords))), filled)
    ensures Derives(p, fr, Call(callee, args, keywords), v)
      <==> DerivesAny(p, Frame(fn.modl, Some(fn), filled + given), ReturnsOf(fn.body), v)
  {
    hide Callee, AcceptedCall, CallPairs, DefaultsLeft, PairNames, MayReturnNone, ReturnsOf, FullyBound, Arguments, PairValues;
    var e, inner, rets := Call(callee, args, keywords), Frame(fn.modl, Some(fn), filled + given), ReturnsOf(fn.body);
    var pairs := CallPairs(fn, args, keywords);
    var left := DefaultsLeft(fn.defaults, PairNames(pairs));
    if Derives(p, fr, e, v) {
      var u :| Value(p, Collect, fr, e, u) == Some(v);
      ArgumentsBind(p, fr, fn, args, keywords, given, filled, u);
      var t := u.kids[2];
      assert CallBody(p, Collect, inner, t) == Some(v);
      SomeTrace(p, inner, rets[t.pick], t.kids[0], v);
    }
    if i :| 0 <= i < |rets| && Derives(p, inner, rets[i], v) {
      var u :| Value(p, Collect, inner, rets[i], u) == Some(v);
      var us: seq<Tr> :| PairValues(p, Collect, fr, pairs, us).Some?;
      var ws: seq<Tr> :| PairValues(p, Collect, ModuleFrame(fn.modl), left, ws).Some?;
      var t := Tr(0, VOther, map[], [Tr(0, VOther, map[], us), Tr(0, VOther, map[], ws), Tr(i, VOther, map[], [u])]);
      ArgumentsBind(p, fr, fn, args, keywords, given, filled, t);
      assert CallBody(p, Collect, inner, t.kids[2]) == Some(v);
      assert Value(p, Collect, fr, e, t) == Some(v);
      SomeTrace(p, fr, e, t, v);
    }
  }
}
