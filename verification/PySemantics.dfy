/** What programs of the fragment do.  Non-determinism (branches, unknown calls, exceptions)
    is resolved by a trace; a property of every execution is a property of every trace.

    Mode Run executes statements over a store of locals.  Mode Collect is flow-insensitive: a
    local takes the value of any of its assignments, a call the value of any return; a local that
    is not plain may hold anything. */
module PySemantics {
  import opened Options
  import opened PySyntax

  datatype Val = VStr(s: string) | VTup(vs: seq<Val>) | VFun(key: Key) | VNone | VOther

  /** pick: the branch taken; val, env: an unknown value and unknown bindings; kids: the
      traces of the parts. */
  datatype Tr = Tr(pick: nat, val: Val, env: map<string, Val>, kids: seq<Tr>)

  datatype Mode = Run | Collect

  datatype Frame = Frame(modl: string, fn: Option<Fn>, vars: map<string, Val>)

  /** How a statement or block ends: control falls through, leaves the block early (break,
      continue, an exception) or returns. */
  datatype Outcome = Normal(vars: map<string, Val>) | Left(vars: map<string, Val>) | Returned(v: Val)

  function ModuleFrame(modl: string): Frame {
    Frame(modl, None, map[])
  }

  predicate FrameLocal(fr: Frame, x: string) {
    fr.fn.Some? && IsLocal(fr.fn.value, x)
  }

  /** str(v): a string itself, the text of None, an unknown string for anything else. */
  function TextOf(v: Val, unknown: Val): Option<string> {
    if v.VStr? then Some(v.s) else if v.VNone? then Some("None") else if unknown.VStr? then Some(unknown.s) else None
  }

  /** The dictionary may hold entry i under the key (an unknown one, if None): no later entry replaces it. */
  predicate MayHit(entries: seq<(Option<string>, Expr)>, i: nat, key: Option<string>) {
    && i < |entries|
    && (key.None? || entries[i].0.None? || entries[i].0 == key)
    && (entries[i].0.Some? ==> forall j :: i < j < |entries| ==> entries[j].0 != entries[i].0)
    && (key.Some? ==> forall j :: i < j < |entries| ==> entries[j].0 != key)
  }

  /** The value e takes along trace t; None when the trace does not fit or Python raises. */
  function Value(p: Program, m: Mode, fr: Frame, e: Expr, t: Tr): Option<Val>
    decreases t, 2
  {
    match e
    case Str(s) => Some(VStr(s))
    case Lit => Some(VOther)
    case FString(parts) =>
      var r := PartsText(p, m, fr, parts, t.kids);
      if r.None? then None else Some(VStr(r.value))
    case Name(id) => NameValue(p, m, fr, id, t)
    case Attr(alias, attr) =>
      if FrameLocal(fr, alias) then Some(t.val)
      else GlobalValue(p, m, ResolveAttr(p, fr.modl, alias, attr), t)
    case Plus(l, r) =>
      if |t.kids| < 2 then None
      else
        var a := Value(p, m, fr, l, t.kids[0]);
        var b := Value(p, m, fr, r, t.kids[1]);
        if a.None? || b.None? then None
        else if a.value.VStr? && b.value.VStr? then Some(VStr(a.value.s + b.value.s))
        else if a.value.VTup? && b.value.VTup? then Some(VTup(a.value.vs + b.value.vs))
        else if a.value.VOther? && b.value.VOther? then Some(VOther)
        else None
    case Cond(thn, els) =>
      if |t.kids| < 1 then None else Value(p, m, fr, if t.pick == 0 then thn else els, t.kids[0])
    case Bool(values) =>
      if |t.kids| < 1 || t.pick >= |values| then None else Value(p, m, fr, values[t.pick], t.kids[0])
    case Display(elts) =>
      var r := Values(p, m, fr, elts, t.kids);
      if r.None? then None else Some(VTup(r.value))
    case DictDisplay(_) => Some(VOther)
    case Call(f, args, keywords) =>
      var callee := Callee(p, fr, f);
      if callee.None? then Some(t.val)                         // a function outside the package
      else if |t.kids| < 3 then None
      else
        var vars := Arguments(p, m, fr, callee.value, args, keywords, t);
        if vars.None? then None
        else CallBody(p, m, Frame(callee.value.modl, Some(callee.value), vars.value), t.kids[2])
    case Index(base, key) =>
      var ref := Resolve(p, fr.modl, base);
      if FrameLocal(fr, base) || !IsDict(p, ref) then Some(t.val)
      else
        var entries := p.constants[ref.value].entries;
        if |t.kids| < 1 || !MayHit(entries, t.pick, key) then None
        else Value(p, m, ModuleFrame(ref.value.0), entries[t.pick].1, t.kids[0])
    case _ => Some(t.val)                                      // Strip, Format, Opaque
  }

  function NameValue(p: Program, m: Mode, fr: Frame, id: string, t: Tr): Option<Val>
    decreases t, 1
  {
    if FrameLocal(fr, id) then
      if m.Collect? && !Plain(fr.fn.value, id) then Some(t.val)
      else if m.Run? || IsParam(fr.fn.value, id) then
        if id in fr.vars then Some(fr.vars[id]) else None       // UnboundLocalError
      else
        var bound := AssignmentsTo(fr.fn.value.body, id);
        if t.pick < |bound| && |t.kids| > 0 then Value(p, m, fr, bound[t.pick], t.kids[0]) else None
    else GlobalValue(p, m, Resolve(p, fr.modl, id), t)
  }

  function GlobalValue(p: Program, m: Mode, ref: Option<Key>, t: Tr): Option<Val>
    decreases t, 0
  {
    if ref.None? then Some(t.val)
    else if ref.value in p.constants then
      if |t.kids| == 0 then None
      else Value(p, m, ModuleFrame(ref.value.0), p.constants[ref.value], t.kids[0])
    else if ref.value in p.functions then Some(VFun(ref.value))
    else Some(t.val)
  }

  function PartsText(p: Program, m: Mode, fr: Frame, parts: seq<Part>, ts: seq<Tr>): Option<string>
    decreases ts
  {
    if parts == [] then Some("")
    else if ts == [] then None
    else
      var head := match parts[0]
        case Text(s) => Some(s)
        case Field(e, spec) =>
          if spec then TextOf(VOther, ts[0].val)
          else if |ts[0].kids| == 0 then None
          else
            var v := Value(p, m, fr, e, ts[0].kids[0]);
            if v.None? then None else TextOf(v.value, ts[0].val);
      var tail := PartsText(p, m, fr, parts[1..], ts[1..]);
      if head.None? || tail.None? then None else Some(head.value + tail.value)
  }

  function Values(p: Program, m: Mode, fr: Frame, es: seq<Expr>, ts: seq<Tr>): (r: Option<seq<Val>>)
    ensures r.Some? ==> |r.value| == |es| && |es| <= |ts|
    decreases ts
  {
    if es == [] then Some([])
    else if ts == [] then None
    else
      var v := Value(p, m, fr, es[0], ts[0]);
      var vs := Values(p, m, fr, es[1..], ts[1..]);
      if v.None? || vs.None? then None else Some([v.value] + vs.value)
  }

  function PairValues(p: Program, m: Mode, fr: Frame, pairs: seq<(string, Expr)>, ts: seq<Tr>)
    : (r: Option<map<string, Val>>)
    ensures r.Some? ==> r.value.Keys == PairNames(pairs)
    decreases ts
  {
    if pairs == [] then Some(map[])
    else if ts == [] then None
    else
      var v := Value(p, m, fr, pairs[0].1, ts[0]);
      var rest := PairValues(p, m, fr, pairs[1..], ts[1..]);
      if v.None? || rest.None? then None
      else
        PairNamesCons(pairs);
        Some(rest.value[pairs[0].0 := v.value])
  }

  /** The package function a callee expression denotes, if it denotes exactly one. */
  function Callee(p: Program, fr: Frame, f: Expr): Option<Fn> {
    match f
    case Name(id) =>
      if FrameLocal(fr, id) then
        if IsParam(fr.fn.value, id) && Plain(fr.fn.value, id) && id in fr.vars && fr.vars[id].VFun?
        then OnlyFn(p, Some(fr.vars[id].key)) else None
      else OnlyFn(p, Resolve(p, fr.modl, id))
    case Attr(alias, attr) =>
      if FrameLocal(fr, alias) then None else OnlyFn(p, ResolveAttr(p, fr.modl, alias, attr))
    case _ => None
  }

  function OnlyFn(p: Program, ref: Option<Key>): Option<Fn> {
    if ref.Some? && ref.value in p.functions && |p.functions[ref.value]| == 1
    then Some(p.functions[ref.value][0]) else None
  }

  /** Argument binding: explicit arguments in the caller's frame, missing ones from the
      defaults in the defining module; None when Python rejects the call. */
  function Arguments(p: Program, m: Mode, fr: Frame, fn: Fn, args: seq<Expr>,
                     keywords: seq<(string, Expr)>, t: Tr): Option<map<string, Val>>
    requires |t.kids| >= 2
    decreases t, 0
  {
    var pairs := CallPairs(fn, args, keywords);
    var left := DefaultsLeft(fn.defaults, PairNames(pairs));
    if !AcceptedCall(fn, args, keywords) then None
    else
      var given := PairValues(p, m, fr, pairs, t.kids[0].kids);
      var filled := PairValues(p, m, ModuleFrame(fn.modl), left, t.kids[1].kids);
      if given.None? || filled.None? then None
      else
        var vars := filled.value + given.value;
        if (forall x | x in fn.params + fn.kwonly :: x in vars) && (forall x | x in vars :: IsParam(fn, x))
        then Some(vars) else None
  }

  function CallBody(p: Program, m: Mode, fr: Frame, t: Tr): Option<Val>
    requires fr.fn.Some?
    decreases t, 2
  {
    var body := fr.fn.value.body;
    match m
    case Run =>
      (match Exec(p, fr, body, t)
       case Normal(_) => Some(VNone)                            // fell off the end
       case Left(_) => None                                     // an exception
       case Returned(v) => Some(v))
    case Collect =>
      var rets := ReturnsOf(body);
      if t.pick < |rets| then
        if |t.kids| == 0 then None else Value(p, m, fr, rets[t.pick], t.kids[0])
      else if MayReturnNone(fr.fn.value) then Some(VNone)
      else None
  }

  // -- statements (mode Run; fr.vars is the store) --------------------------------------------

  function Exec(p: Program, fr: Frame, b: seq<Stmt>, t: Tr): Outcome
    decreases t, 1
  {
    if b == [] then Normal(fr.vars)
    else if t.pick == 0 || |t.kids| < 2 then Left(fr.vars)
    else
      match ExecStmt(p, fr, b[0], t.kids[0])
      case Normal(vars) => Exec(p, fr.(vars := vars), b[1..], t.kids[1])
      case Left(vars) => Left(vars)
      case Returned(v) => Returned(v)
  }

  function ExecStmt(p: Program, fr: Frame, s: Stmt, t: Tr): Outcome
    decreases t, 0
  {
    if |t.kids| < 2 then Left(fr.vars)
    else
      match s
      case Assign(targets, value) =>
        var v := Value(p, Run, fr, value, t.kids[0]);
        if v.None? then Left(fr.vars) else Normal(BindAll(targets, v.value, fr.vars, t.env))
      case AugAssign(target, value) =>
        var v := Value(p, Run, fr, value, t.kids[0]);
        if v.None? then Left(fr.vars) else AddTo(target, v.value, fr.vars, t.env)
      case For(target, iter, body) =>
        if iter.Display? then
          var vs := Values(p, Run, fr, iter.elts, t.kids[0].kids);
          if vs.None? then Left(fr.vars) else ForLoop(p, fr, target, vs, body, t.kids[1])
        else ForLoop(p, fr, target, None, body, t.kids[1])
      case While(body) => WhileLoop(p, fr, body, t.kids[1])
      case If(thn, els) => Exec(p, fr, if t.pick == 0 then thn else els, t.kids[0])
      case Try(body, handler) =>
        (match Exec(p, fr, body, t.kids[0])
         case Left(vars) =>
           if t.pick == 0 then Left(vars) else Exec(p, fr.(vars := vars), handler, t.kids[1])
         case other => other)
      case Return(result) =>
        if result.None? then Returned(VNone)
        else
          var v := Value(p, Run, fr, result.value, t.kids[0]);
          if v.None? then Left(fr.vars) else Returned(v.value)
      case Pass => Normal(fr.vars)
  }

  function WhileLoop(p: Program, fr: Frame, body: seq<Stmt>, t: Tr): Outcome
    decreases t, 0
  {
    if t.pick == 0 || |t.kids| < 2 then Normal(fr.vars)
    else
      match Exec(p, fr, body, t.kids[0])
      case Normal(vars) => WhileLoop(p, fr.(vars := vars), body, t.kids[1])
      case Left(vars) => if t.pick == 1 then Left(vars) else WhileLoop(p, fr.(vars := vars), body, t.kids[1])
      case Returned(v) => Returned(v)
  }

  /** elements: the values of a literal iterable, or None for one known only at run time. */
  function ForLoop(p: Program, fr: Frame, target: Target, elements: Option<seq<Val>>, body: seq<Stmt>, t: Tr): Outcome
    decreases t, 0
  {
    if t.pick == 0 || |t.kids| < 3 || (elements.Some? && t.kids[0].pick >= |elements.value|)
    then Normal(fr.vars)
    else
      var bound := if elements.Some?
        then Bind(target, elements.value[t.kids[0].pick], fr.vars, t.env)
        else Havoc(TargetNames(target), t.env, fr.vars);
      match Exec(p, fr.(vars := bound), body, t.kids[1])
      case Normal(vars) => ForLoop(p, fr.(vars := vars), target, elements, body, t.kids[2])
      case Left(vars) =>
        if t.pick == 1 then Left(vars) else ForLoop(p, fr.(vars := vars), target, elements, body, t.kids[2])
      case Returned(v) => Returned(v)
  }

  /** Unpacks v into the target; names of a target that does not unpack a tuple of its own
      length element by element take unknown values. */
  function Bind(target: Target, v: Val, vars: map<string, Val>, unknown: map<string, Val>): map<string, Val>
    decreases target
  {
    match target
    case TName(id) => vars[id := v]
    case TTuple(ts) =>
      if v.VTup? && |v.vs| == |ts| && (forall i :: 0 <= i < |ts| ==> !ts[i].TStar?)
      then BindElements(ts, v.vs, vars, unknown)
      else Havoc(TargetsNames(ts), unknown, vars)
    case _ => vars
  }

  function BindElements(ts: seq<Target>, vs: seq<Val>, vars: map<string, Val>, unknown: map<string, Val>): map<string,
                        Val>
    requires |ts| == |vs|
    decreases ts
  {
    if ts == [] then vars
    else BindElements(ts[1..], vs[1..], Bind(ts[0], vs[0], vars, unknown), unknown)
  }

  function BindAll(ts: seq<Target>, v: Val, vars: map<string, Val>, unknown: map<string, Val>): map<string, Val> {
    if ts == [] then vars else BindAll(ts[1..], v, Bind(ts[0], v, vars, unknown), unknown)
  }

  /** target += v: strings are concatenated, what else it may leave is unknown; an unbound name raises. */
  function AddTo(target: Target, v: Val, vars: map<string, Val>, unknown: map<string, Val>): Outcome {
    if target.TName? && target.id !in vars then Left(vars)
    else if target.TName? && vars[target.id].VStr? && v.VStr?
    then Normal(vars[target.id := VStr(vars[target.id].s + v.s)])
    else Normal(Havoc(TargetNames(target), unknown, vars))
  }

  function Havoc(names: seq<string>, unknown: map<string, Val>, vars: map<string, Val>): map<string, Val> {
    vars + map x | x in names && x in unknown :: unknown[x]
  }
}
