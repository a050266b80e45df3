/** The Python fragment the constant folder reads: expressions, assignment targets,
    statements, functions and the whole parsed package. */
module PySyntax {
  import opened Options

  /** A module-level definition: (module, name). */
  type Key = (string, string)

  datatype Expr =
    | Str(text: string)
    | Lit                                              // a constant that is not a string
    | FString(parts: seq<Part>)
    | Name(id: string)
    | Attr(alias: string, attr: string)                // alias.attr
    | Plus(left: Expr, right: Expr)
    | Cond(thn: Expr, els: Expr)                       // the test is never folded
    | Bool(values: seq<Expr>)
    | Index(base: string, key: Option<string>)         // base["key"], or base[<run-time value>]
    | Strip(recv: Expr)                                // recv.strip(...) and its siblings
    | Format(recv: Expr)                               // recv.format(...)
    | Call(callee: Expr, args: seq<Expr>, keywords: seq<(string, Expr)>)
    | Display(elts: seq<Expr>)                         // tuple or list display
    | DictDisplay(entries: seq<(Option<string>, Expr)>)
    | Opaque                                           // anything the folder does not read

  datatype Part = Text(text: string) | Field(expr: Expr, spec: bool)

  datatype Target =
    | TName(id: string)
    | TTuple(elts: seq<Target>)
    | TStar(inner: Target)
    | TOther                                           // attribute or subscript target

  datatype Stmt =
    | Assign(targets: seq<Target>, value: Expr)
    | AugAssign(target: Target, value: Expr)
    | For(target: Target, iter: Expr, body: seq<Stmt>)
    | While(body: seq<Stmt>)
    | If(thn: seq<Stmt>, els: seq<Stmt>)
    | Try(body: seq<Stmt>, handler: seq<Stmt>)
    | Return(result: Option<Expr>)
    | Pass

  datatype Fn = Fn(modl: string, name: string, params: seq<string>, kwonly: seq<string>,
                   defaults: seq<(string, Expr)>, body: seq<Stmt>)

  /** The parsed package.  names: what a bare name of a module resolves to once import chains
      are followed; aliases: module aliases; order: the iteration order of a string set. */
  datatype Program = Program(constants: map<Key, Expr>, functions: map<Key, seq<Fn>>,
                             names: map<Key, Key>, aliases: map<Key, string>,
                             order: set<string> -> seq<string>)

  function Resolve(p: Program, modl: string, id: string): Option<Key> {
    if (modl, id) in p.names then Some(p.names[(modl, id)]) else None
  }

  /** The module-level definition an attribute access names, if its base is a module alias. */
  function ResolveAttr(p: Program, modl: string, alias: string, attr: string): Option<Key> {
    if (modl, alias) in p.aliases then Some((p.aliases[(modl, alias)], attr)) else None
  }

  /** The reference is to a module constant that is a dictionary display. */
  predicate IsDict(p: Program, ref: Option<Key>) {
    ref.Some? && ref.value in p.constants && p.constants[ref.value].DictDisplay?
  }

  predicate IsParam(fn: Fn, x: string) {
    x in fn.params + fn.kwonly
  }

  function TargetNames(t: Target): seq<string> {
    match t
    case TName(id) => [id]
    case TTuple(ts) => TargetsNames(ts)
    case TStar(inner) => TargetNames(inner)
    case TOther => []
  }

  function TargetsNames(ts: seq<Target>): seq<string> {
    if ts == [] then [] else TargetNames(ts[0]) + TargetsNames(ts[1..])
  }

  /** Expressions bound to x when `target = value` runs; Opaque when x is bound to a value
      the folder cannot name. */
  function BindTarget(t: Target, value: Expr, x: string): seq<Expr> {
    match t
    case TName(id) => if id == x then [value] else []
    case TTuple(ts) =>
      if x !in TargetsNames(ts) then []
      else if value.Display? && |value.elts| == |ts| && (forall i :: 0 <= i < |ts| ==> !ts[i].TStar?)
      then BindTargets(ts, value.elts, x)
      else [Opaque]
    case _ => []
  }

  function BindTargets(ts: seq<Target>, values: seq<Expr>, x: string): seq<Expr>
    requires |ts| == |values|
  {
    if ts == [] then [] else BindTarget(ts[0], values[0], x) + BindTargets(ts[1..], values[1..], x)
  }

  function BindEach(t: Target, values: seq<Expr>, x: string): seq<Expr> {
    if values == [] then [] else BindTarget(t, values[0], x) + BindEach(t, values[1..], x)
  }

  function BindChain(ts: seq<Target>, value: Expr, x: string): seq<Expr> {
    if ts == [] then [] else BindTarget(ts[0], value, x) + BindChain(ts[1..], value, x)
  }

  /** Every expression x is bound to anywhere in the block. */
  function AssignmentsTo(b: seq<Stmt>, x: string): seq<Expr>
    decreases b
  {
    if b == [] then [] else StmtAssignments(b[0], x) + AssignmentsTo(b[1..], x)
  }

  function StmtAssignments(s: Stmt, x: string): seq<Expr>
    decreases s
  {
    match s
    case Assign(ts, value) => BindChain(ts, value, x)
    case AugAssign(t, value) => BindTarget(t, value, x)
    case For(t, iter, body) =>
      (if iter.Display? && iter.elts != [] then BindEach(t, iter.elts, x)
       else if x in TargetNames(t) then [Opaque] else [])
      + AssignmentsTo(body, x)
    case While(body) => AssignmentsTo(body, x)
    case If(thn, els) => AssignmentsTo(thn, x) + AssignmentsTo(els, x)
    case Try(body, handler) => AssignmentsTo(body, x) + AssignmentsTo(handler, x)
    case _ => []
  }

  /** The return expressions of a function body. */
  function ReturnsOf(b: seq<Stmt>): seq<Expr>
    decreases b
  {
    if b == [] then [] else StmtReturns(b[0]) + ReturnsOf(b[1..])
  }

  function StmtReturns(s: Stmt): seq<Expr>
    decreases s
  {
    match s
    case Return(value) => if value.Some? then [value.value] else []
    case For(_, _, body) => ReturnsOf(body)
    case While(body) => ReturnsOf(body)
    case If(thn, els) => ReturnsOf(thn) + ReturnsOf(els)
    case Try(body, handler) => ReturnsOf(body) + ReturnsOf(handler)
    case _ => []
  }

  predicate IsLocal(fn: Fn, x: string) {
    IsParam(fn, x) || AssignmentsTo(fn.body, x) != []
  }

  /** Control cannot reach the end of the block: some statement always returns a value. */
  predicate AlwaysReturns(b: seq<Stmt>)
    decreases b
  {
    b != [] && (StmtAlwaysReturns(b[0]) || AlwaysReturns(b[1..]))
  }

  predicate StmtAlwaysReturns(s: Stmt)
    decreases s
  {
    match s
    case Return(_) => true
    case If(thn, els) => AlwaysReturns(thn) && AlwaysReturns(els)
    case Try(body, handler) => AlwaysReturns(body) && AlwaysReturns(handler)
    case _ => false
  }

  /** Some `return` carries no value. */
  predicate BareReturn(b: seq<Stmt>)
    decreases b
  {
    b != [] && (StmtBareReturn(b[0]) || BareReturn(b[1..]))
  }

  predicate StmtBareReturn(s: Stmt)
    decreases s
  {
    match s
    case Return(value) => value.None?
    case For(_, _, body) => BareReturn(body)
    case While(body) => BareReturn(body)
    case If(thn, els) => BareReturn(thn) || BareReturn(els)
    case Try(body, handler) => BareReturn(body) || BareReturn(handler)
    case _ => false
  }

  predicate MayReturnNone(fn: Fn) {
    !AlwaysReturns(fn.body) || BareReturn(fn.body)
  }

  /** Some augmented assignment of the block binds x. */
  predicate Augmented(b: seq<Stmt>, x: string)
    decreases b
  {
    b != [] && (StmtAugmented(b[0], x) || Augmented(b[1..], x))
  }

  predicate StmtAugmented(s: Stmt, x: string)
    decreases s
  {
    match s
    case AugAssign(target, _) => x in TargetNames(target)
    case For(_, _, body) => Augmented(body, x)
    case While(body) => Augmented(body, x)
    case If(thn, els) => Augmented(thn, x) || Augmented(els, x)
    case Try(body, handler) => Augmented(body, x) || Augmented(handler, x)
    case _ => false
  }

  /** What x holds in fn is its argument, if it is a parameter, or the value of one of its plain
      assignments. */
  predicate Plain(fn: Fn, x: string) {
    !Augmented(fn.body, x) && (IsParam(fn, x) ==> AssignmentsTo(fn.body, x) == [])
  }

  /** The (parameter, argument) pairs a call binds: positional arguments in parameter order,
      then the keywords that name a parameter; surplus arguments bind nothing. */
  function CallPairs(fn: Fn, args: seq<Expr>, keywords: seq<(string, Expr)>): seq<(string, Expr)> {
    var n := if |args| <= |fn.params| then |args| else |fn.params|;
    seq(n, i requires 0 <= i < n => (fn.params[i], args[i])) + NamedPairs(fn, keywords)
  }

  function NamedPairs(fn: Fn, keywords: seq<(string, Expr)>): (r: seq<(string, Expr)>)
    ensures forall i :: 0 <= i < |r| ==> IsParam(fn, r[i].0) && r[i] in keywords
    ensures (forall i :: 0 <= i < |keywords| ==> IsParam(fn, keywords[i].0)) ==> r == keywords
  {
    if keywords == [] then []
    else (if IsParam(fn, keywords[0].0) then [keywords[0]] else []) + NamedPairs(fn, keywords[1..])
  }

  function PairNames(pairs: seq<(string, Expr)>): set<string> {
    set i | 0 <= i < |pairs| :: pairs[i].0
  }

  lemma PairNamesCons(pairs: seq<(string, Expr)>)
    requires pairs != []
    ensures PairNames(pairs) == {pairs[0].0} + PairNames(pairs[1..])
  {
    forall x | x in PairNames(pairs) ensures x in {pairs[0].0} + PairNames(pairs[1..]) {
      var i :| 0 <= i < |pairs| && pairs[i].0 == x;
      if i > 0 { assert pairs[1..][i - 1].0 == x; }
    }
    forall x | x in PairNames(pairs[1..]) ensures x in PairNames(pairs) {
      var i :| 0 <= i < |pairs[1..]| && pairs[1..][i].0 == x;
      assert pairs[i + 1].0 == x;
    }
  }

  /** The defaults of the parameters a call leaves unbound. */
  function DefaultsLeft(defaults: seq<(string, Expr)>, bound: set<string>): (r: seq<(string, Expr)>)
    ensures forall i :: 0 <= i < |r| ==> r[i] in defaults && r[i].0 !in bound
  {
    if defaults == [] then []
    else (if defaults[0].0 in bound then [] else [defaults[0]]) + DefaultsLeft(defaults[1..], bound)
  }

  /** Python accepts the call: no surplus argument, no unknown keyword, no parameter twice. */
  predicate AcceptedCall(fn: Fn, args: seq<Expr>, keywords: seq<(string, Expr)>) {
    && |args| <= |fn.params|
    && (forall i :: 0 <= i < |keywords| ==> IsParam(fn, keywords[i].0))
    && (var pairs := CallPairs(fn, args, keywords);
        forall i, j :: 0 <= i < j < |pairs| ==> pairs[i].0 != pairs[j].0)
  }

  // -- what the collecting functions collect ---------------------------------------------------

  /** The statement occurs in the block, at any depth. */
  predicate Occurs(b: seq<Stmt>, s: Stmt)
    decreases b
  {
    b != [] && (b[0] == s || OccursIn(b[0], s) || Occurs(b[1..], s))
  }

  predicate OccursIn(outer: Stmt, s: Stmt)
    decreases outer
  {
    match outer
    case For(_, _, body) => Occurs(body, s)
    case While(body) => Occurs(body, s)
    case If(thn, els) => Occurs(thn, s) || Occurs(els, s)
    case Try(body, handler) => Occurs(body, s) || Occurs(handler, s)
    case _ => false
  }

  /** The expressions a function may return are those of the return statements in its body. */
  lemma {:induction false} ReturnsAre(b: seq<Stmt>, e: Expr)
    ensures e in ReturnsOf(b) <==> Occurs(b, Return(Some(e)))
    decreases b
  {
    if b == [] {
    } else {
      match b[0] {
        case For(_, _, body) => ReturnsAre(body, e);
        case While(body) => ReturnsAre(body, e);
        case If(thn, els) => ReturnsAre(thn, e); ReturnsAre(els, e);
        case Try(body, handler) => ReturnsAre(body, e); ReturnsAre(handler, e);
        case _ =>
      }
      ReturnsAre(b[1..], e);
    }
  }

  /** target = value binds x to e: a tuple is unpacked element by element against a display of its length, and
      any other value of a tuple target is unknown. */
  ghost predicate BindsTo(t: Target, value: Expr, x: string, e: Expr)
    decreases t
  {
    match t
    case TName(id) => id == x && e == value
    case TTuple(ts) =>
      if value.Display? && |value.elts| == |ts| && (forall i :: 0 <= i < |ts| ==> !ts[i].TStar?)
      then exists i :: 0 <= i < |ts| && BindsTo(ts[i], value.elts[i], x, e)
      else x in TargetsNames(ts) && e == Opaque
    case _ => false
  }

  /** The statement itself binds x to e; a loop over a display binds each element. */
  ghost predicate Assigns(s: Stmt, x: string, e: Expr) {
    match s
    case Assign(ts, value) => exists i :: 0 <= i < |ts| && BindsTo(ts[i], value, x, e)
    case AugAssign(t, value) => BindsTo(t, value, x, e)
    case For(t, iter, _) =>
      if iter.Display? && iter.elts != [] then exists i :: 0 <= i < |iter.elts| && BindsTo(t, iter.elts[i], x, e)
      else x in TargetNames(t) && e == Opaque
    case _ => false
  }

  lemma {:induction false} BindsIff(t: Target, value: Expr, x: string, e: Expr)
    ensures e in BindTarget(t, value, x) <==> BindsTo(t, value, x, e)
    ensures BindsTo(t, value, x, e) ==> x in TargetNames(t)
    decreases t, 1
  {
    match t
    case TTuple(ts) =>
      if value.Display? && |value.elts| == |ts| && (forall i :: 0 <= i < |ts| ==> !ts[i].TStar?) {
        BindsEach(ts, value.elts, x, e);
      }
    case _ =>
  }

  lemma {:induction false} BindsEach(ts: seq<Target>, values: seq<Expr>, x: string, e: Expr)
    requires |ts| == |values|
    ensures e in BindTargets(ts, values, x) <==> exists i :: 0 <= i < |ts| && BindsTo(ts[i], values[i], x, e)
    ensures (exists i :: 0 <= i < |ts| && BindsTo(ts[i], values[i], x, e)) ==> x in TargetsNames(ts)
    decreases ts, 0
  {
    if ts == [] {
    } else {
      BindsIff(ts[0], values[0], x, e);
      BindsEach(ts[1..], values[1..], x, e);
      if i :| 0 <= i < |ts| && BindsTo(ts[i], values[i], x, e) && i > 0 {
        assert BindsTo(ts[1..][i - 1], values[1..][i - 1], x, e);
      }
      if i :| 0 <= i < |ts[1..]| && BindsTo(ts[1..][i], values[1..][i], x, e) {
        assert BindsTo(ts[i + 1], values[i + 1], x, e);
      }
    }
  }

  lemma {:induction false} ChainIff(ts: seq<Target>, value: Expr, x: string, e: Expr)
    ensures e in BindChain(ts, value, x) <==> exists i :: 0 <= i < |ts| && BindsTo(ts[i], value, x, e)
  {
    if ts == [] {
    } else {
      BindsIff(ts[0], value, x, e);
      ChainIff(ts[1..], value, x, e);
      if i :| 0 <= i < |ts| && BindsTo(ts[i], value, x, e) && i > 0 { assert BindsTo(ts[1..][i - 1], value, x, e); }
      if i :| 0 <= i < |ts[1..]| && BindsTo(ts[1..][i], value, x, e) { assert BindsTo(ts[i + 1], value, x, e); }
    }
  }

  lemma {:induction false} EachIff(t: Target, values: seq<Expr>, x: string, e: Expr)
    ensures e in BindEach(t, values, x) <==> exists i :: 0 <= i < |values| && BindsTo(t, values[i], x, e)
  {
    if values == [] {
    } else {
      BindsIff(t, values[0], x, e);
      EachIff(t, values[1..], x, e);
      if i :| 0 <= i < |values| && BindsTo(t, values[i], x, e) && i > 0 { assert BindsTo(t, values[1..][i - 1], x, e); }
      if i :| 0 <= i < |values[1..]| && BindsTo(t, values[1..][i], x, e) { assert BindsTo(t, values[i + 1], x, e); }
    }
  }

  /** The expressions the folder takes a local for are those that some statement of the body, at any depth,
      binds it to. */
  lemma {:induction false} AssignmentsAre(b: seq<Stmt>, x: string, e: Expr)
    ensures e in AssignmentsTo(b, x) <==> exists s :: Occurs(b, s) && Assigns(s, x, e)
    decreases b
  {
    hide BindsTo;
    if b == [] {
    } else {
      AssignmentsIn(b[0], x, e);
      AssignmentsAre(b[1..], x, e);
      hide Assigns, OccursIn, StmtAssignments;
      if s :| Occurs(b, s) && Assigns(s, x, e) { assert s == b[0] || OccursIn(b[0], s) || Occurs(b[1..], s); }
      if e in StmtAssignments(b[0], x) {
        var s :| (s == b[0] || OccursIn(b[0], s)) && Assigns(s, x, e);
        assert Occurs(b, s);
      }
      if s :| Occurs(b[1..], s) && Assigns(s, x, e) { assert Occurs(b, s); }
    }
  }

  lemma {:induction false} AssignmentsIn(outer: Stmt, x: string, e: Expr)
    ensures e in StmtAssignments(outer, x) <==> exists s :: (s == outer || OccursIn(outer, s)) && Assigns(s, x, e)
    decreases outer
  {
    hide BindsTo, Occurs;
    match outer {
      case Assign(ts, value) => ChainIff(ts, value, x, e);
      case AugAssign(t, value) => BindsIff(t, value, x, e);
      case For(t, iter, body) =>
        AssignmentsAre(body, x, e);
        if iter.Display? { EachIff(t, iter.elts, x, e); }
      case While(body) => AssignmentsAre(body, x, e);
      case If(thn, els) => AssignmentsAre(thn, x, e); AssignmentsAre(els, x, e);
      case Try(body, handler) => AssignmentsAre(body, x, e); AssignmentsAre(handler, x, e);
      case _ =>
    }
    if Assigns(outer, x, e) { assert (outer == outer || OccursIn(outer, outer)) && Assigns(outer, x, e); }
  }
}
