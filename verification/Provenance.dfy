/** Every value an execution computes can be derived flow-insensitively: mode Run is
    simulated by mode Collect. */
module Provenance {
  import opened Options
  import opened PySyntax
  import opened PySemantics

  ghost predicate Derives(p: Program, fr: Frame, e: Expr, v: Val) {
    exists u :: Value(p, Collect, fr, e, u) == Some(v)
  }

  /** Some expression of the list derives v. */
  ghost predicate DerivesAny(p: Program, fr: Frame, es: seq<Expr>, v: Val) {
    exists i :: 0 <= i < |es| && Derives(p, fr, es[i], v)
  }

  /** The store of an execution inside fr: plain parameters keep the argument they were bound to and
      every other plain local was derived from one of its assignments. */
  ghost predicate Explained(p: Program, fr: Frame, vars: map<string, Val>)
    requires fr.fn.Some?
  {
    && fr.vars.Keys <= vars.Keys
    && forall x | x in vars && Plain(fr.fn.value, x) ::
      if IsParam(fr.fn.value, x) then x in fr.vars && fr.vars[x] == vars[x]
      else IsLocal(fr.fn.value, x) ==> DerivesAny(p, fr, AssignmentsTo(fr.fn.value.body, x), vars[x])
  }

  /** fr is a frame of the collecting semantics that explains the running frame. */
  ghost predicate Explains(p: Program, run: Frame, fr: Frame) {
    && run.modl == fr.modl && run.fn == fr.fn
    && (fr.fn.Some? ==> Explained(p, fr, run.vars))
  }

  // -- expressions ----------------------------------------------------------------------------

  lemma SomeTrace(p: Program, fr: Frame, e: Expr, u: Tr, v: Val)
    requires Value(p, Collect, fr, e, u) == Some(v)
    ensures Derives(p, fr, e, v)
  {}

  /** A plain local's value was derived from one of its assignments. */
  lemma LocalCollected(p: Program, run: Frame, fr: Frame, id: string) returns (u: Tr)
    requires Explains(p, run, fr) && FrameLocal(run, id) && !IsParam(run.fn.value, id) && id in run.vars
    requires Plain(run.fn.value, id)
    ensures NameValue(p, Collect, fr, id, u) == Some(run.vars[id])
  {
    var bound := AssignmentsTo(run.fn.value.body, id);
    var v := run.vars[id];
    assert DerivesAny(p, fr, bound, v);
    var i :| 0 <= i < |bound| && Derives(p, fr, bound[i], v);
    var w :| Value(p, Collect, fr, bound[i], w) == Some(v);
    u := Tr(i, VOther, map[], [w]);
  }

  lemma {:induction false} ValueCollected(p: Program, run: Frame, fr: Frame, e: Expr, t: Tr)
    returns (u: Tr)
    requires Explains(p, run, fr)
    requires Value(p, Run, run, e, t).Some?
    ensures Value(p, Collect, fr, e, u) == Value(p, Run, run, e, t)
    decreases t, 2
  {
    u := t;
    match e
    case FString(parts) =>
      var us := PartsCollected(p, run, fr, parts, t.kids);
      u := Tr(0, VOther, map[], us);
    case Name(id) =>
      if FrameLocal(run, id) {
        if !Plain(run.fn.value, id) {
          u := Tr(0, run.vars[id], map[], []);
        } else if !IsParam(run.fn.value, id) {
          u := LocalCollected(p, run, fr, id);
        }
      } else {
        u := GlobalCollected(p, Resolve(p, run.modl, id), t);
      }
    case Attr(alias, attr) =>
      if !FrameLocal(run, alias) {
        u := GlobalCollected(p, ResolveAttr(p, run.modl, alias, attr), t);
      }
    case Plus(l, r) =>
      var a := ValueCollected(p, run, fr, l, t.kids[0]);
      var b := ValueCollected(p, run, fr, r, t.kids[1]);
      u := Tr(0, VOther, map[], [a, b]);
    case Cond(thn, els) =>
      var a := ValueCollected(p, run, fr, if t.pick == 0 then thn else els, t.kids[0]);
      u := Tr(t.pick, VOther, map[], [a]);
    case Bool(values) =>
      var a := ValueCollected(p, run, fr, values[t.pick], t.kids[0]);
      u := Tr(t.pick, VOther, map[], [a]);
    case Display(elts) =>
      var us := ValuesCollected(p, run, fr, elts, t.kids);
      u := Tr(0, VOther, map[], us);
    case Call(f, args, keywords) =>
      assert Callee(p, run, f) == Callee(p, fr, f);
      if Callee(p, run, f).Some? {
        u := CallCollected(p, run, fr, Callee(p, run, f).value, args, keywords, t);
      }
    case Index(base, key) =>
      var ref := Resolve(p, run.modl, base);
      if !FrameLocal(run, base) && IsDict(p, ref) {
        var there := ModuleFrame(ref.value.0);
        var a := ValueCollected(p, there, there, p.constants[ref.value].entries[t.pick].1, t.kids[0]);
        u := Tr(t.pick, VOther, map[], [a]);
      }
    case _ =>
  }

  lemma {:induction false} GlobalCollected(p: Program, ref: Option<Key>, t: Tr) returns (u: Tr)
    requires GlobalValue(p, Run, ref, t).Some?
    ensures GlobalValue(p, Collect, ref, u) == GlobalValue(p, Run, ref, t)
    decreases t, 0
  {
    u := t;
    if ref.Some? && ref.value in p.constants {
      var fr := ModuleFrame(ref.value.0);
      var w := ValueCollected(p, fr, fr, p.constants[ref.value], t.kids[0]);
      u := Tr(0, VOther, map[], [w]);
    }
  }

  lemma {:induction false} PartsCollected(p: Program, run: Frame, fr: Frame, parts: seq<Part>, ts: seq<Tr>)
    returns (us: seq<Tr>)
    requires Explains(p, run, fr)
    requires PartsText(p, Run, run, parts, ts).Some?
    ensures PartsText(p, Collect, fr, parts, us) == PartsText(p, Run, run, parts, ts)
    decreases ts
  {
    us := [];
    if parts == [] {
    } else {
      var head := ts[0];
      if parts[0].Field? && !parts[0].spec {
        var w := ValueCollected(p, run, fr, parts[0].expr, ts[0].kids[0]);
        head := Tr(0, ts[0].val, map[], [w]);
      }
      var tail := PartsCollected(p, run, fr, parts[1..], ts[1..]);
      us := [head] + tail;
      assert us[1..] == tail;
    }
  }

  lemma {:induction false} ValuesCollected(p: Program, run: Frame, fr: Frame, es: seq<Expr>, ts: seq<Tr>)
    returns (us: seq<Tr>)
    requires Explains(p, run, fr)
    requires Values(p, Run, run, es, ts).Some?
    ensures Values(p, Collect, fr, es, us) == Values(p, Run, run, es, ts)
    decreases ts
  {
    us := [];
    if es == [] {
    } else {
      var w := ValueCollected(p, run, fr, es[0], ts[0]);
      var tail := ValuesCollected(p, run, fr, es[1..], ts[1..]);
      us := [w] + tail;
      assert us[1..] == tail;
    }
  }

  lemma {:induction false} PairsCollected(p: Program, run: Frame, fr: Frame, pairs: seq<(string, Expr)>, ts: seq<Tr>)
    returns (us: seq<Tr>)
    requires Explains(p, run, fr)
    requires PairValues(p, Run, run, pairs, ts).Some?
    ensures PairValues(p, Collect, fr, pairs, us) == PairValues(p, Run, run, pairs, ts)
    decreases ts
  {
    us := [];
    if pairs == [] {
    } else {
      var w := ValueCollected(p, run, fr, pairs[0].1, ts[0]);
      var tail := PairsCollected(p, run, fr, pairs[1..], ts[1..]);
      us := [w] + tail;
      assert us[1..] == tail;
    }
  }

  lemma {:induction false} CallCollected(p: Program, run: Frame, fr: Frame, fn: Fn, args: seq<Expr>,
                                         keywords: seq<(string, Expr)>, t: Tr)
    returns (u: Tr)
    requires Explains(p, run, fr)
    requires |t.kids| >= 3 && Arguments(p, Run, run, fn, args, keywords, t).Some?
    requires CallBody(p, Run, Frame(fn.modl, Some(fn), Arguments(p, Run, run, fn, args, keywords, t).value), t.kids[2]).Some?
    ensures |u.kids| >= 3 && Arguments(p, Collect, fr, fn, args, keywords, u) == Arguments(p, Run, run, fn, args, keywords, t)
    ensures CallBody(p, Collect, Frame(fn.modl, Some(fn), Arguments(p, Collect, fr, fn, args, keywords, u).value), u.kids[2])
         == CallBody(p, Run, Frame(fn.modl, Some(fn), Arguments(p, Run, run, fn, args, keywords, t).value), t.kids[2])
    decreases t, 1
  {
    var pairs := CallPairs(fn, args, keywords);
    var left := DefaultsLeft(fn.defaults, PairNames(pairs));
    var module_ := ModuleFrame(fn.modl);
    var given := PairsCollected(p, run, fr, pairs, t.kids[0].kids);
    var filled := PairsCollected(p, module_, module_, left, t.kids[1].kids);
    var callee := Frame(fn.modl, Some(fn), Arguments(p, Run, run, fn, args, keywords, t).value);
    var body := BodyCollected(p, callee, t.kids[2]);
    u := Tr(0, VOther, map[], [Tr(0, VOther, map[], given), Tr(0, VOther, map[], filled), body]);
  }

  // -- statements -----------------------------------------------------------------------------

  /** b is part of the body: what it binds and returns, the body binds and returns. */
  ghost predicate Within(b: seq<Stmt>, body: seq<Stmt>) {
    && (forall x :: Augmented(b, x) ==> Augmented(body, x))
    && (forall x, e :: e in AssignmentsTo(b, x) ==> e in AssignmentsTo(body, x))
    && (forall e :: e in ReturnsOf(b) ==> e in ReturnsOf(body))
    && (BareReturn(b) ==> BareReturn(body))
  }

  ghost predicate StmtWithin(s: Stmt, body: seq<Stmt>) {
    && (forall x :: StmtAugmented(s, x) ==> Augmented(body, x))
    && (forall x, e :: e in StmtAssignments(s, x) ==> e in AssignmentsTo(body, x))
    && (forall e :: e in StmtReturns(s) ==> e in ReturnsOf(body))
    && (StmtBareReturn(s) ==> BareReturn(body))
  }

  ghost predicate OutcomeExplained(p: Program, fr: Frame, o: Outcome)
    requires fr.fn.Some?
  {
    match o
    case Normal(vars) => Explained(p, fr, vars)
    case Left(vars) => Explained(p, fr, vars)
    case Returned(v) =>
      DerivesAny(p, fr, ReturnsOf(fr.fn.value.body), v) || (v == VNone && BareReturn(fr.fn.value.body))
  }

  lemma DerivesMember(p: Program, fr: Frame, es: seq<Expr>, e: Expr, v: Val)
    requires e in es && Derives(p, fr, e, v)
    ensures DerivesAny(p, fr, es, v)
  {
    var i :| 0 <= i < |es| && es[i] == e;
    assert Derives(p, fr, es[i], v);
  }

  lemma UnknownDerives(p: Program, fr: Frame, v: Val)
    ensures Derives(p, fr, Opaque, v)
  {
    SomeTrace(p, fr, Opaque, Tr(0, v, map[], []), v);
  }

  /** Rebinding one name to a derivable value keeps the store explained. */
  lemma SetExplained(p: Program, fr: Frame, vars: map<string, Val>, x: string, e: Expr, v: Val)
    requires fr.fn.Some? && Explained(p, fr, vars)
    requires e in AssignmentsTo(fr.fn.value.body, x) && Derives(p, fr, e, v)
    ensures Explained(p, fr, vars[x := v])
  {
    DerivesMember(p, fr, AssignmentsTo(fr.fn.value.body, x), e, v);
  }

  lemma HavocExplained(p: Program, fr: Frame, names: seq<string>, unknown: map<string, Val>, vars: map<string, Val>)
    requires fr.fn.Some? && Explained(p, fr, vars)
    requires forall x | x in names :: Opaque in AssignmentsTo(fr.fn.value.body, x) || Augmented(fr.fn.value.body, x)
    ensures Explained(p, fr, Havoc(names, unknown, vars))
  {
    var r := Havoc(names, unknown, vars);
    forall x | x in r && Plain(fr.fn.value, x)
      ensures if IsParam(fr.fn.value, x) then x in fr.vars && fr.vars[x] == r[x]
              else IsLocal(fr.fn.value, x) ==> DerivesAny(p, fr, AssignmentsTo(fr.fn.value.body, x), r[x])
    {
      if x in names && x in unknown {
        UnknownDerives(p, fr, r[x]);
        SetExplained(p, fr, vars, x, Opaque, r[x]);
        assert Explained(p, fr, vars[x := r[x]]);
        assert x in vars[x := r[x]];
      }
    }
  }

  lemma {:induction false} UnknownBindExplained(p: Program, fr: Frame, target: Target, v: Val,
                                                vars: map<string, Val>, unknown: map<string, Val>)
    requires fr.fn.Some? && Explained(p, fr, vars)
    requires forall x | x in TargetNames(target) :: Opaque in AssignmentsTo(fr.fn.value.body, x)
    ensures Explained(p, fr, Bind(target, v, vars, unknown))
    decreases target
  {
    match target
    case TName(id) =>
      UnknownDerives(p, fr, v);
      SetExplained(p, fr, vars, id, Opaque, v);
    case TTuple(ts) =>
      if v.VTup? && |v.vs| == |ts| && (forall i :: 0 <= i < |ts| ==> !ts[i].TStar?) {
        UnknownElementsExplained(p, fr, ts, v.vs, vars, unknown);
      } else {
        HavocExplained(p, fr, TargetsNames(ts), unknown, vars);
      }
    case _ =>
  }

  lemma {:induction false} UnknownElementsExplained(p: Program, fr: Frame, ts: seq<Target>, vs: seq<Val>,
                                                    vars: map<string, Val>, unknown: map<string, Val>)
    requires fr.fn.Some? && Explained(p, fr, vars) && |ts| == |vs|
    requires forall x | x in TargetsNames(ts) :: Opaque in AssignmentsTo(fr.fn.value.body, x)
    ensures Explained(p, fr, BindElements(ts, vs, vars, unknown))
    decreases ts
  {
    if ts == [] {
    } else {
      UnknownBindExplained(p, fr, ts[0], vs[0], vars, unknown);
      UnknownElementsExplained(p, fr, ts[1..], vs[1..], Bind(ts[0], vs[0], vars, unknown), unknown);
    }
  }

  /** Only the target's own names are bound. */
  lemma {:induction false} BindTargetNames(t: Target, value: Expr, x: string)
    ensures BindTarget(t, value, x) != [] ==> x in TargetNames(t)
    decreases t
  {}

  lemma {:induction false} BindTargetsNames(ts: seq<Target>, values: seq<Expr>, x: string)
    requires |ts| == |values|
    ensures BindTargets(ts, values, x) != [] ==> x in TargetsNames(ts)
    decreases ts
  {
    if ts == [] {
    } else {
      BindTargetNames(ts[0], values[0], x);
      BindTargetsNames(ts[1..], values[1..], x);
    }
  }

  lemma {:induction false} BindExplained(p: Program, fr: Frame, target: Target, e: Expr, v: Val,
                                         vars: map<string, Val>, unknown: map<string, Val>)
    requires fr.fn.Some? && Explained(p, fr, vars) && Derives(p, fr, e, v)
    requires forall x, a :: a in BindTarget(target, e, x) ==> a in AssignmentsTo(fr.fn.value.body, x)
    ensures Explained(p, fr, Bind(target, v, vars, unknown))
    decreases target
  {
    match target
    case TName(id) =>
      assert e in BindTarget(target, e, id);
      SetExplained(p, fr, vars, id, e, v);
    case TTuple(ts) =>
      if e.Display? && |e.elts| == |ts| && (forall i :: 0 <= i < |ts| ==> !ts[i].TStar?) {
        var u :| Value(p, Collect, fr, e, u) == Some(v);
        ValuesDerive(p, fr, e.elts, u.kids);
        forall x, a | a in BindTargets(ts, e.elts, x) ensures a in AssignmentsTo(fr.fn.value.body, x) {
          BindTargetsNames(ts, e.elts, x);
          assert a in BindTarget(target, e, x);
        }
        ElementsExplained(p, fr, ts, e.elts, v.vs, vars, unknown);
      } else {
        forall x | x in TargetNames(target) ensures Opaque in AssignmentsTo(fr.fn.value.body, x) {
          assert Opaque in BindTarget(target, e, x);
        }
        UnknownBindExplained(p, fr, target, v, vars, unknown);
      }
    case _ =>
  }

  lemma {:induction false} ValuesDerive(p: Program, fr: Frame, es: seq<Expr>, us: seq<Tr>)
    requires Values(p, Collect, fr, es, us).Some?
    ensures forall i :: 0 <= i < |es| ==> Derives(p, fr, es[i], Values(p, Collect, fr, es, us).value[i])
    decreases es
  {
    if es == [] {
    } else {
      SomeTrace(p, fr, es[0], us[0], Value(p, Collect, fr, es[0], us[0]).value);
      ValuesDerive(p, fr, es[1..], us[1..]);
    }
  }

  lemma {:induction false} ElementsExplained(p: Program, fr: Frame, ts: seq<Target>, es: seq<Expr>, vs: seq<Val>,
                                             vars: map<string, Val>, unknown: map<string, Val>)
    requires fr.fn.Some? && Explained(p, fr, vars)
    requires |ts| == |es| == |vs| && forall i :: 0 <= i < |es| ==> Derives(p, fr, es[i], vs[i])
    requires forall x, a :: a in BindTargets(ts, es, x) ==> a in AssignmentsTo(fr.fn.value.body, x)
    ensures Explained(p, fr, BindElements(ts, vs, vars, unknown))
    decreases ts
  {
    if ts == [] {
    } else {
      forall x, a | a in BindTarget(ts[0], es[0], x) ensures a in AssignmentsTo(fr.fn.value.body, x) {
        assert a in BindTargets(ts, es, x);
      }
      forall x, a | a in BindTargets(ts[1..], es[1..], x) ensures a in AssignmentsTo(fr.fn.value.body, x) {
        assert a in BindTargets(ts, es, x);
      }
      BindExplained(p, fr, ts[0], es[0], vs[0], vars, unknown);
      ElementsExplained(p, fr, ts[1..], es[1..], vs[1..], Bind(ts[0], vs[0], vars, unknown), unknown);
    }
  }

  lemma {:induction false} ChainExplained(p: Program, fr: Frame, ts: seq<Target>, e: Expr, v: Val,
                                          vars: map<string, Val>, unknown: map<string, Val>)
    requires fr.fn.Some? && Explained(p, fr, vars) && Derives(p, fr, e, v)
    requires forall x, a :: a in BindChain(ts, e, x) ==> a in AssignmentsTo(fr.fn.value.body, x)
    ensures Explained(p, fr, BindAll(ts, v, vars, unknown))
    decreases ts
  {
    if ts == [] {
    } else {
      forall x, a | a in BindTarget(ts[0], e, x) ensures a in AssignmentsTo(fr.fn.value.body, x) {
        assert a in BindChain(ts, e, x);
      }
      forall x, a | a in BindChain(ts[1..], e, x) ensures a in AssignmentsTo(fr.fn.value.body, x) {
        assert a in BindChain(ts, e, x);
      }
      BindExplained(p, fr, ts[0], e, v, vars, unknown);
      ChainExplained(p, fr, ts[1..], e, v, Bind(ts[0], v, vars, unknown), unknown);
    }
  }

  lemma {:induction false} BindEachMember(t: Target, es: seq<Expr>, k: nat, x: string, a: Expr)
    requires k < |es| && a in BindTarget(t, es[k], x)
    ensures a in BindEach(t, es, x)
    decreases es
  {
    if k > 0 { BindEachMember(t, es[1..], k - 1, x, a); }
  }

  lemma {:induction false} ExecExplained(p: Program, run: Frame, fr: Frame, b: seq<Stmt>, t: Tr)
    requires Explains(p, run, fr) && fr.fn.Some? && Within(b, fr.fn.value.body)
    ensures OutcomeExplained(p, fr, Exec(p, run, b, t))
    decreases t, 4
  {
    if b != [] && t.pick != 0 && |t.kids| >= 2 {
      var body := fr.fn.value.body;
      forall x, e | e in StmtAssignments(b[0], x) ensures e in AssignmentsTo(body, x) {
        assert e in AssignmentsTo(b, x);
      }
      forall x, e | e in AssignmentsTo(b[1..], x) ensures e in AssignmentsTo(body, x) {
        assert e in AssignmentsTo(b, x);
      }
      forall e | e in StmtReturns(b[0]) || e in ReturnsOf(b[1..]) ensures e in ReturnsOf(body) {
        assert e in ReturnsOf(b);
      }
      StmtExplained(p, run, fr, b[0], t.kids[0]);
      var o := ExecStmt(p, run, b[0], t.kids[0]);
      if o.Normal? {
        ExecExplained(p, run.(vars := o.vars), fr, b[1..], t.kids[1]);
      }
    }
  }

  lemma {:induction false} StmtExplained(p: Program, run: Frame, fr: Frame, s: Stmt, t: Tr)
    requires Explains(p, run, fr) && fr.fn.Some? && StmtWithin(s, fr.fn.value.body)
    ensures OutcomeExplained(p, fr, ExecStmt(p, run, s, t))
    decreases t, 3
  {
    if |t.kids| >= 2 {
      match s
      case Assign(targets, value) =>
        var v := Value(p, Run, run, value, t.kids[0]);
        if v.Some? {
          var u := ValueCollected(p, run, fr, value, t.kids[0]);
          SomeTrace(p, fr, value, u, v.value);
          forall x, a | a in BindChain(targets, value, x) ensures a in AssignmentsTo(fr.fn.value.body, x) {
            assert a in StmtAssignments(s, x);
          }
          ChainExplained(p, fr, targets, value, v.value, run.vars, t.env);
        }
      case AugAssign(target, value) => AddExplained(p, run, fr, s, t);
      case For(target, iter, body) => ForExplained(p, run, fr, s, t);
      case While(body) =>
        WithinBody(s, body, fr.fn.value.body);
        WhileExplained(p, run, fr, body, t.kids[1]);
      case If(thn, els) =>
        var branch := if t.pick == 0 then thn else els;
        WithinBody(s, branch, fr.fn.value.body);
        ExecExplained(p, run, fr, branch, t.kids[0]);
      case Try(body, handler) =>
        WithinBody(s, body, fr.fn.value.body);
        WithinBody(s, handler, fr.fn.value.body);
        ExecExplained(p, run, fr, body, t.kids[0]);
        var o := Exec(p, run, body, t.kids[0]);
        if o.Left? { ExecExplained(p, run.(vars := o.vars), fr, handler, t.kids[1]); }
      case Return(result) =>
        if result.Some? {
          var v := Value(p, Run, run, result.value, t.kids[0]);
          if v.Some? {
            var u := ValueCollected(p, run, fr, result.value, t.kids[0]);
            SomeTrace(p, fr, result.value, u, v.value);
            assert result.value in StmtReturns(s);
            DerivesMember(p, fr, ReturnsOf(fr.fn.value.body), result.value, v.value);
          }
        }
      case _ =>
    }
  }

  /** An augmented local is not plain, so nothing is asked of it. */
  lemma AddExplained(p: Program, run: Frame, fr: Frame, s: Stmt, t: Tr)
    requires Explains(p, run, fr) && fr.fn.Some? && StmtWithin(s, fr.fn.value.body)
    requires s.AugAssign? && |t.kids| >= 2
    ensures OutcomeExplained(p, fr, ExecStmt(p, run, s, t))
  {
    hide Value;
    forall x | x in TargetNames(s.target) ensures Augmented(fr.fn.value.body, x) {
      assert StmtAugmented(s, x);
    }
    HavocExplained(p, fr, TargetNames(s.target), t.env, run.vars);
  }

  /** A nested block binds and returns no more than the statement around it. */
  lemma WithinBody(s: Stmt, b: seq<Stmt>, body: seq<Stmt>)
    requires StmtWithin(s, body)
    requires match s
      case For(_, _, inner) => b == inner
      case While(inner) => b == inner
      case If(thn, els) => b == thn || b == els
      case Try(inner, handler) => b == inner || b == handler
      case _ => false
    ensures Within(b, body)
  {
    forall x, e | e in AssignmentsTo(b, x) ensures e in AssignmentsTo(body, x) {
      assert e in StmtAssignments(s, x);
    }
    forall e | e in ReturnsOf(b) ensures e in ReturnsOf(body) {
      assert e in StmtReturns(s);
    }
  }

  lemma {:induction false} WhileExplained(p: Program, run: Frame, fr: Frame, body: seq<Stmt>, t: Tr)
    requires Explains(p, run, fr) && fr.fn.Some? && Within(body, fr.fn.value.body)
    ensures OutcomeExplained(p, fr, WhileLoop(p, run, body, t))
    decreases t, 0
  {
    if t.pick != 0 && |t.kids| >= 2 {
      ExecExplained(p, run, fr, body, t.kids[0]);
      var o := Exec(p, run, body, t.kids[0]);
      if !o.Returned? { WhileExplained(p, run.(vars := o.vars), fr, body, t.kids[1]); }
    }
  }

  lemma {:induction false} ForExplained(p: Program, run: Frame, fr: Frame, s: Stmt, t: Tr)
    requires Explains(p, run, fr) && fr.fn.Some? && StmtWithin(s, fr.fn.value.body)
    requires s.For? && |t.kids| >= 2
    ensures OutcomeExplained(p, fr, ExecStmt(p, run, s, t))
    decreases t, 2
  {
    WithinBody(s, s.body, fr.fn.value.body);
    if s.iter.Display? && s.iter.elts != [] {
      var vs := Values(p, Run, run, s.iter.elts, t.kids[0].kids);
      if vs.Some? {
        var us := ValuesCollected(p, run, fr, s.iter.elts, t.kids[0].kids);
        ValuesDerive(p, fr, s.iter.elts, us);
        forall x, k, a | 0 <= k < |s.iter.elts| && a in BindTarget(s.target, s.iter.elts[k], x)
          ensures a in AssignmentsTo(fr.fn.value.body, x)
        {
          BindEachMember(s.target, s.iter.elts, k, x, a);
          assert a in StmtAssignments(s, x);
        }
        ForLoopExplained(p, run, fr, s.target, s.iter.elts, vs, s.body, t.kids[1]);
      }
    } else {
      forall x | x in TargetNames(s.target) ensures Opaque in AssignmentsTo(fr.fn.value.body, x) {
        assert Opaque in StmtAssignments(s, x);
      }
      ForLoopExplained(p, run, fr, s.target, [], if s.iter.Display? then Some([]) else None, s.body, t.kids[1]);
    }
  }

  lemma {:induction false} ForLoopExplained(p: Program, run: Frame, fr: Frame, target: Target, es: seq<Expr>,
                                            elements: Option<seq<Val>>, body: seq<Stmt>, t: Tr)
    requires Explains(p, run, fr) && fr.fn.Some? && Within(body, fr.fn.value.body)
    requires elements.Some? ==>
      && |elements.value| == |es|
      && (forall k :: 0 <= k < |es| ==> Derives(p, fr, es[k], elements.value[k]))
      && (forall x, k, a :: 0 <= k < |es| && a in BindTarget(target, es[k], x) ==> a in AssignmentsTo(fr.fn.value.body, x))
    requires elements.None? ==> forall x | x in TargetNames(target) :: Opaque in AssignmentsTo(fr.fn.value.body, x)
    ensures OutcomeExplained(p, fr, ForLoop(p, run, target, elements, body, t))
    decreases t, 0
  {
    if t.pick != 0 && |t.kids| >= 3 && (elements.None? || t.kids[0].pick < |elements.value|) {
      var bound: map<string, Val>;
      if elements.Some? {
        var k := t.kids[0].pick;
        bound := Bind(target, elements.value[k], run.vars, t.env);
        BindExplained(p, fr, target, es[k], elements.value[k], run.vars, t.env);
      } else {
        bound := Havoc(TargetNames(target), t.env, run.vars);
        HavocExplained(p, fr, TargetNames(target), t.env, run.vars);
      }
      ExecExplained(p, run.(vars := bound), fr, body, t.kids[1]);
      var o := Exec(p, run.(vars := bound), body, t.kids[1]);
      if !o.Returned? {
        ForLoopExplained(p, run.(vars := o.vars), fr, target, es, elements, body, t.kids[2]);
      }
    }
  }

  /** Control never falls off the end of a block that always returns. */
  lemma {:induction false} AlwaysReturnsHolds(p: Program, run: Frame, b: seq<Stmt>, t: Tr)
    requires AlwaysReturns(b)
    ensures !Exec(p, run, b, t).Normal?
    decreases t, 1
  {
    if t.pick != 0 && |t.kids| >= 2 {
      if StmtAlwaysReturns(b[0]) {
        StmtAlwaysReturnsHolds(p, run, b[0], t.kids[0]);
      } else {
        var o := ExecStmt(p, run, b[0], t.kids[0]);
        if o.Normal? { AlwaysReturnsHolds(p, run.(vars := o.vars), b[1..], t.kids[1]); }
      }
    }
  }

  lemma {:induction false} StmtAlwaysReturnsHolds(p: Program, run: Frame, s: Stmt, t: Tr)
    requires StmtAlwaysReturns(s)
    ensures !ExecStmt(p, run, s, t).Normal?
    decreases t, 0
  {
    if |t.kids| >= 2 {
      match s
      case If(thn, els) => AlwaysReturnsHolds(p, run, if t.pick == 0 then thn else els, t.kids[0]);
      case Try(body, handler) =>
        AlwaysReturnsHolds(p, run, body, t.kids[0]);
        var o := Exec(p, run, body, t.kids[0]);
        if o.Left? { AlwaysReturnsHolds(p, run.(vars := o.vars), handler, t.kids[1]); }
      case _ =>
    }
  }

  /** A call's result is derived from one of the callee's returns. */
  lemma {:induction false} BodyCollected(p: Program, fr: Frame, t: Tr) returns (u: Tr)
    requires fr.fn.Some?
    requires forall x | x in fr.vars :: IsParam(fr.fn.value, x)
    requires CallBody(p, Run, fr, t).Some?
    ensures CallBody(p, Collect, fr, u) == CallBody(p, Run, fr, t)
    decreases t, 5
  {
    var body := fr.fn.value.body;
    ExecExplained(p, fr, fr, body, t);
    var o := Exec(p, fr, body, t);
    u := Tr(|ReturnsOf(body)|, VOther, map[], []);
    if o.Normal? {
      if AlwaysReturns(body) { AlwaysReturnsHolds(p, fr, body, t); }
    } else if DerivesAny(p, fr, ReturnsOf(body), o.v) {
      var i :| 0 <= i < |ReturnsOf(body)| && Derives(p, fr, ReturnsOf(body)[i], o.v);
      var w :| Value(p, Collect, fr, ReturnsOf(body)[i], w) == Some(o.v);
      u := Tr(i, VOther, map[], [w]);
    }
  }
}
