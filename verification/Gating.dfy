/** Tool gating: one pass over the declarations registers or skips each tool, looking at the
    registry as it stands; a validator then rejects orders in which that look came too early. */
module Gating {
  import opened Options
  import opened Strings

  /** wraps: in dry-run mode the write's wrapper can be installed. */
  datatype Decl = Decl(name: string, area: string, readOnly: bool, needs: seq<string>, wraps: bool)

  /** disabled: tool names, writeAreas: areas, both lower-cased; no area listed means all. */
  datatype Settings = Settings(disabled: set<string>, enableWrites: bool, writeAreas: set<string>, dryRun: bool)

  /** Needs: the first required tool found unregistered, with its area if it had a record then. */
  datatype Reason = Disabled | WritesOff | AreaNotAllowed | Needs(tool: string, area: Option<string>) | NotWrapped

  datatype Record = Record(decl: Decl, registered: bool, skipped: Option<Reason>)

  type Registry = map<string, Record>

  function SkipReason(s: Settings, d: Decl): Option<Reason> {
    if Lower(d.name) in s.disabled then Some(Disabled)
    else if d.readOnly then None
    else if !s.enableWrites then Some(WritesOff)
    else if s.writeAreas != {} && Lower(d.area) !in s.writeAreas then Some(AreaNotAllowed)
    else None
  }

  function LowerNames(tools: Registry): set<string> {
    set t | t in tools :: Lower(t)
  }

  /** Some tool has the name in lower case. */
  ghost predicate Known(tools: Registry, n: string) {
    exists t :: t in tools && Lower(t) == n
  }

  ghost predicate NamesKnown(s: Settings, tools: Registry, allAreas: set<string>) {
    s.writeAreas <= allAreas && forall n | n in s.disabled :: Known(tools, n)
  }

  predicate WrapperFails(s: Settings, d: Decl) {
    !d.readOnly && s.dryRun && !d.wraps
  }

  predicate IsRegistered(tools: Registry, name: string) {
    name in tools && tools[name].registered
  }

  function MissingRequirement(tools: Registry, required: seq<string>): Option<Reason> {
    if required == [] then None
    else if IsRegistered(tools, required[0]) then MissingRequirement(tools, required[1..])
    else Some(Needs(required[0], if required[0] in tools then Some(tools[required[0]].decl.area) else None))
  }

  /** The registry once d is declared: its record is there, unregistered, while it is decided. */
  function Declared(s: Settings, tools: Registry, d: Decl): Registry {
    var pending := tools[d.name := Record(d, false, None)];
    var reason :=
      if SkipReason(s, d).Some? then SkipReason(s, d)
      else if MissingRequirement(pending, d.needs).Some? then MissingRequirement(pending, d.needs)
      else if WrapperFails(s, d) then Some(NotWrapped)
      else None;
    tools[d.name := Record(d, reason.None?, reason)]
  }

  function DeclaredAll(s: Settings, decls: seq<Decl>): Registry {
    if decls == [] then map[]
    else Declared(s, DeclaredAll(s, decls[..|decls| - 1]), decls[|decls| - 1])
  }

  /** A bug in the declarations: a required name no module defines, or one defined too late. */
  datatype Problem = Undefined(tool: string, required: string) | DefinedLater(tool: string, required: string)

  predicate SkippedFor(r: Record, required: string) {
    r.skipped.Some? && r.skipped.value.Needs? && r.skipped.value.tool == required
  }

  predicate IsProblem(tools: Registry, p: Problem) {
    && p.tool in tools && p.required in tools[p.tool].decl.needs
    && match p
       case Undefined(_, required) => required !in tools
       case DefinedLater(tool, required) =>
         && required in tools && SkippedFor(tools[tool], required)
         && (tools[required].registered || tools[tool].skipped.value.area.None?)
  }

  ghost predicate Validates(tools: Registry) {
    forall p :: !IsProblem(tools, p)
  }

  datatype Validation = Valid | UnknownNames(areas: set<string>, tools: set<string>) | Bugs(problems: set<Problem>)

  class AppContext {
    const settings: Settings
    var tools: Registry

    constructor (settings: Settings)
      ensures this.settings == settings && tools == map[]
    {
      this.settings := settings;
      tools := map[];
    }

    /** register_tool's decorator; false when the name already has a record (ValueError). */
    method RegisterTool(d: Decl) returns (ok: bool)
      modifies this`tools
      ensures ok <==> d.name !in old(tools)
      ensures tools == if ok then Declared(settings, old(tools), d) else old(tools)
    {
      if d.name in tools { return false; }
      ok := true;
      tools := tools[d.name := Record(d, false, None)];
      var reason := SkipReason(settings, d);
      if reason.None? { reason := FindMissing(d.needs); }
      if reason.Some? {
        tools := tools[d.name := Record(d, false, reason)];
        return;
      }
      if WrapperFails(settings, d) {
        tools := tools[d.name := Record(d, false, Some(NotWrapped))];
        return;
      }
      tools := tools[d.name := Record(d, true, None)];
    }

    method FindMissing(required: seq<string>) returns (reason: Option<Reason>)
      ensures reason == MissingRequirement(tools, required)
    {
      for i := 0 to |required|
        invariant MissingRequirement(tools, required) == MissingRequirement(tools, required[i..])
      {
        var name := required[i];
        assert required[i..][0] == name && required[i..][1..] == required[i + 1..];
        if !IsRegistered(tools, name) {
          return Some(Needs(name, if name in tools then Some(tools[name].decl.area) else None));
        }
      }
      reason := None;
    }

    /** Every module in order, on a fresh registry; false when a name is declared twice. */
    method RegisterAll(decls: seq<Decl>) returns (ok: bool)
      requires tools == map[]
      modifies this`tools
      ensures ok <==> DistinctNames(decls)
      ensures ok ==> tools == DeclaredAll(settings, decls)
    {
      ok := true;
      assert decls[..0] == [];
      for i := 0 to |decls|
        invariant ok && DistinctNames(decls[..i]) && tools == DeclaredAll(settings, decls[..i])
      {
        DeclaredNames(settings, decls[..i]);
        assert decls[..i + 1][..i] == decls[..i];
        ok := RegisterTool(decls[i]);
        if !ok {
          var j :| 0 <= j < i && decls[..i][j].name == decls[i].name;
          return;
        }
      }
      assert decls[..|decls|] == decls;
    }

    /** requirement_problems, as a set. */
    method RequirementProblems() returns (problems: set<Problem>)
      ensures forall p :: p in problems <==> IsProblem(tools, p)
    {
      problems := {};
      var todo := tools.Keys;
      while todo != {}
        invariant todo <= tools.Keys
        invariant forall p :: p in problems <==> IsProblem(tools, p) && p.tool !in todo
      {
        var name :| name in todo;
        var required := tools[name].decl.needs;
        ghost var before := problems;
        for i := 0 to |required|
          invariant forall p :: p in problems <==>
            p in before || (IsProblem(tools, p) && p.tool == name && p.required in required[..i])
        {
          var r := required[i];
          assert required[..i + 1] == required[..i] + [r];
          if r !in tools {
            problems := problems + {Undefined(name, r)};
          } else if SkippedFor(tools[name], r) && (tools[r].registered || tools[name].skipped.value.area.None?) {
            problems := problems + {DefinedLater(name, r)};
          }
        }
        assert required[..|required|] == required;
        todo := todo - {name};
      }
    }

    /** validate_gating: unknown areas or tool names first, then bugs in the order. */
    method ValidateGating(allAreas: set<string>) returns (v: Validation)
      ensures v.Valid? <==> NamesKnown(settings, tools, allAreas) && Validates(tools)
      ensures v.UnknownNames? <==> !NamesKnown(settings, tools, allAreas)
      ensures v.UnknownNames? ==> v.areas == settings.writeAreas - allAreas
      ensures v.UnknownNames? ==> forall n :: n in v.tools <==> n in settings.disabled && !Known(tools, n)
      ensures v.Bugs? ==> forall p :: p in v.problems <==> IsProblem(tools, p)
    {
      var badAreas := settings.writeAreas - allAreas;
      var badTools := settings.disabled - LowerNames(tools);
      NoneLeft(settings.writeAreas, allAreas);
      NoneLeft(settings.disabled, LowerNames(tools));
      if badAreas != {} || badTools != {} { return UnknownNames(badAreas, badTools); }
      var problems := RequirementProblems();
      if problems != {} {
        var p :| p in problems;
        assert IsProblem(tools, p);
        return Bugs(problems);
      }
      v := Valid;
    }
  }

  lemma NoneLeft(a: set<string>, b: set<string>)
    ensures a - b == {} <==> a <= b
  {
    if a - b == {} { forall x | x in a ensures x in b { assert x !in a - b; } }
  }

  // -- facts about the pass --------------------------------------------------------------------------

  ghost predicate DistinctNames(decls: seq<Decl>) {
    forall i, j :: 0 <= i < j < |decls| ==> decls[i].name != decls[j].name
  }

  lemma {:induction false} DeclaredNames(s: Settings, decls: seq<Decl>)
    ensures forall n :: n in DeclaredAll(s, decls) <==> exists i :: 0 <= i < |decls| && decls[i].name == n
  {
    if decls == [] {
    } else {
      var init, last := decls[..|decls| - 1], decls[|decls| - 1];
      DeclaredNames(s, init);
      forall n ensures n in DeclaredAll(s, decls) <==> exists i :: 0 <= i < |decls| && decls[i].name == n {
        if i :| 0 <= i < |decls| && decls[i].name == n && i < |decls| - 1 { assert init[i].name == n; }
        if i :| 0 <= i < |init| && init[i].name == n { assert decls[i].name == n; }
        assert last.name in DeclaredAll(s, decls) && decls[|decls| - 1].name == last.name;
      }
    }
  }

  /** Own gate: nothing but its requirements keeps the tool out. */
  predicate OwnGate(s: Settings, d: Decl) {
    SkipReason(s, d).None? && !WrapperFails(s, d)
  }

  lemma {:induction false} MissingMeans(tools: Registry, required: seq<string>)
    ensures MissingRequirement(tools, required).None? <==> forall r | r in required :: IsRegistered(tools, r)
    ensures MissingRequirement(tools, required).Some? ==>
      var n := MissingRequirement(tools, required).value;
      n.Needs? && n.tool in required && !IsRegistered(tools, n.tool) && (n.area.None? <==> n.tool !in tools)
  {
    if required == [] {
    } else {
      MissingMeans(tools, required[1..]);
    }
  }

  /** A tool's record is fixed when it is declared; earlier ones are not touched again. */
  lemma {:induction false} RecordKept(s: Settings, decls: seq<Decl>, i: nat, n: nat)
    requires DistinctNames(decls) && i < n <= |decls|
    ensures decls[i].name in DeclaredAll(s, decls[..n])
    ensures DeclaredAll(s, decls[..n])[decls[i].name] == DeclaredAll(s, decls[..i + 1])[decls[i].name]
    decreases n
  {
    assert decls[..n][..n - 1] == decls[..n - 1] && decls[..n][n - 1] == decls[n - 1];
    if i < n - 1 { RecordKept(s, decls, i, n - 1); }
  }

  /** What the pass decided about declaration i, in terms of the registry it saw. */
  lemma Decided(s: Settings, decls: seq<Decl>, i: nat)
    requires DistinctNames(decls) && i < |decls|
    ensures var d, final := decls[i], DeclaredAll(s, decls);
      var seen := DeclaredAll(s, decls[..i])[d.name := Record(d, false, None)];
      && d.name in final && final[d.name].decl == d
      && (final[d.name].registered <==> OwnGate(s, d) && MissingRequirement(seen, d.needs).None?)
      && (SkipReason(s, d).None? && MissingRequirement(seen, d.needs).Some? ==>
            final[d.name].skipped == MissingRequirement(seen, d.needs))
      && (final[d.name].skipped.Some? && final[d.name].skipped.value.Needs? ==>
            final[d.name].skipped == MissingRequirement(seen, d.needs))
  {
    RecordKept(s, decls, i, |decls|);
    assert decls[..|decls|] == decls;
    assert decls[..i + 1][..i] == decls[..i] && decls[..i + 1][i] == decls[i];
  }

  /** A name the pass saw registered was declared before, and is registered in the end. */
  lemma SeenEarlier(s: Settings, decls: seq<Decl>, i: nat, name: string) returns (j: nat)
    requires DistinctNames(decls) && i < |decls| && name in DeclaredAll(s, decls[..i])
    ensures j < i && decls[j].name == name && name in DeclaredAll(s, decls)
    ensures DeclaredAll(s, decls)[name] == DeclaredAll(s, decls[..i])[name]
  {
    DeclaredNames(s, decls[..i]);
    var k :| 0 <= k < |decls[..i]| && decls[..i][k].name == name;
    j := k;
    RecordKept(s, decls, j, i);
    RecordKept(s, decls, j, |decls|);
    assert decls[..|decls|] == decls;
  }

  // -- what the gate keeps out ---------------------------------------------------------------------

  /** The settings let the tool through: it is not disabled by name, a write needs writes enabled and
      its area listed if any is, and in dry-run mode a wrapper. */
  ghost predicate Allowed(s: Settings, d: Decl) {
    && Lower(d.name) !in s.disabled
    && (!d.readOnly ==> s.enableWrites && (s.writeAreas == {} || Lower(d.area) in s.writeAreas))
    && (!d.readOnly && s.dryRun ==> d.wraps)
  }

  /** NOTHING GETS PAST THE GATE.  Whatever the declarations and their order, a registered tool is one
      the settings let through. */
  lemma {:induction false} RegisteredAllowed(s: Settings, decls: seq<Decl>, name: string)
    requires IsRegistered(DeclaredAll(s, decls), name)
    ensures var d := DeclaredAll(s, decls)[name].decl; d.name == name && d in decls && Allowed(s, d)
    decreases |decls|
  {
    if decls == [] {
    } else {
      var n := |decls| - 1;
      if decls[n].name != name { RegisteredAllowed(s, decls[..n], name); }
    }
  }

  /** Disabling a tool by a lower-cased name keeps out every spelling of it. */
  lemma DisabledInAnyCase(s: Settings, decls: seq<Decl>, name: string, entry: string)
    requires entry in s.disabled && Lower(entry) == entry && EqualUpToCase(name, entry)
    ensures !IsRegistered(DeclaredAll(s, decls), name)
  {
    LowerFolds(name, entry);
    if IsRegistered(DeclaredAll(s, decls), name) { RegisteredAllowed(s, decls, name); }
  }

  /** Conversely, a tool the settings let through is registered when all it requires is registered by
      then; and only those. */
  lemma AllowedRegistered(s: Settings, decls: seq<Decl>, i: nat)
    requires DistinctNames(decls) && i < |decls|
    ensures var d, before := decls[i], DeclaredAll(s, decls[..i]);
      IsRegistered(DeclaredAll(s, decls), d.name)
      <==> Allowed(s, d) && forall r | r in d.needs :: IsRegistered(before, r) && r != d.name
  {
    hide DeclaredAll;
    var d, before := decls[i], DeclaredAll(s, decls[..i]);
    Decided(s, decls, i);
    MissingMeans(before[d.name := Record(d, false, None)], d.needs);
    DeclaredNames(s, decls[..i]);
    forall j | 0 <= j < |decls[..i]| ensures decls[..i][j].name != d.name { assert decls[j].name != decls[i].name; }
  }

  /** Why a tool is skipped: the first of these that applies. */
  lemma SkippedBecause(s: Settings, decls: seq<Decl>, i: nat)
    requires DistinctNames(decls) && i < |decls|
    ensures decls[i].name in DeclaredAll(s, decls)
    ensures var d, skipped := decls[i], DeclaredAll(s, decls)[decls[i].name].skipped;
      var listed := Lower(d.name) in s.disabled;
      && (skipped == Some(Disabled) <==> listed)
      && (skipped == Some(WritesOff) <==> !listed && !d.readOnly && !s.enableWrites)
      && (skipped == Some(AreaNotAllowed) <==>
            !listed && !d.readOnly && s.enableWrites && s.writeAreas != {} && Lower(d.area) !in s.writeAreas)
      && (skipped == Some(NotWrapped) ==> !listed && !d.readOnly && s.dryRun && !d.wraps)
      && (skipped.None? <==> IsRegistered(DeclaredAll(s, decls), d.name))
  {
    hide DeclaredAll, Lower, MissingRequirement;
    RecordKept(s, decls, i, |decls|);
    assert decls[..|decls|] == decls;
    DeclaredNext(s, decls, i);
    MissingMeans(DeclaredAll(s, decls[..i])[decls[i].name := Record(decls[i], false, None)], decls[i].needs);
  }

  lemma DeclaredNext(s: Settings, decls: seq<Decl>, i: nat)
    requires i < |decls|
    ensures DeclaredAll(s, decls[..i + 1]) == Declared(s, DeclaredAll(s, decls[..i]), decls[i])
  {
    assert decls[..i + 1][..i] == decls[..i] && decls[..i + 1][i] == decls[i];
  }

  // -- the theorems ----------------------------------------------------------------------------------

  /** GATING IS A FIXPOINT.  In an order that validates, a tool is registered exactly when its own
      gate passes and every tool it requires is registered in the final registry. */
  lemma RegisteredIffRequirementsAre(s: Settings, decls: seq<Decl>, i: nat)
    requires DistinctNames(decls) && Validates(DeclaredAll(s, decls)) && i < |decls|
    ensures var d, final := decls[i], DeclaredAll(s, decls);
      IsRegistered(final, d.name) <==> OwnGate(s, d) && forall r | r in d.needs :: IsRegistered(final, r)
  {
    hide DeclaredAll;
    var d, final := decls[i], DeclaredAll(s, decls);
    var seen := DeclaredAll(s, decls[..i])[d.name := Record(d, false, None)];
    Decided(s, decls, i);
    MissingMeans(seen, d.needs);
    if IsRegistered(final, d.name) {
      forall r | r in d.needs ensures IsRegistered(final, r) {
        assert IsRegistered(seen, r);
        var j := SeenEarlier(s, decls, i, r);
      }
    } else if OwnGate(s, d) {
      var r := MissingRequirement(seen, d.needs).value.tool;
      assert !IsProblem(final, DefinedLater(d.name, r));
      assert !IsRegistered(final, r);
    }
  }

  ghost predicate SameDeclarations(a: seq<Decl>, b: seq<Decl>) {
    forall d :: d in a <==> d in b
  }

  /** A tool that requires itself is never registered. */
  lemma SelfRequired(s: Settings, decls: seq<Decl>, i: nat)
    requires DistinctNames(decls) && i < |decls| && decls[i].name in decls[i].needs
    ensures !IsRegistered(DeclaredAll(s, decls), decls[i].name)
  {
    hide DeclaredAll;
    var d := decls[i];
    Decided(s, decls, i);
    MissingMeans(DeclaredAll(s, decls[..i])[d.name := Record(d, false, None)], d.needs);
  }

  lemma {:induction false} OrderIrrelevantFor(s: Settings, a: seq<Decl>, b: seq<Decl>, i: nat)
    requires DistinctNames(a) && DistinctNames(b) && SameDeclarations(a, b)
    requires Validates(DeclaredAll(s, a)) && Validates(DeclaredAll(s, b)) && i < |a|
    ensures IsRegistered(DeclaredAll(s, a), a[i].name) <==> IsRegistered(DeclaredAll(s, b), a[i].name)
    decreases i
  {
    hide DeclaredAll, Validates;
    var d, one, two := a[i], DeclaredAll(s, a), DeclaredAll(s, b);
    var seen := DeclaredAll(s, a[..i])[d.name := Record(d, false, None)];
    assert d in a;
    var k :| 0 <= k < |b| && b[k] == d;
    RegisteredIffRequirementsAre(s, a, i);
    RegisteredIffRequirementsAre(s, b, k);
    Decided(s, a, i);
    MissingMeans(seen, d.needs);
    if IsRegistered(one, d.name) {
      forall r | r in d.needs ensures IsRegistered(two, r) {
        var j := SeenEarlier(s, a, i, r);
        OrderIrrelevantFor(s, a, b, j);
      }
    } else if OwnGate(s, d) {
      var n := MissingRequirement(seen, d.needs).value;
      NotTooEarly(s, a, i, n);
      if n.tool == d.name {
        SelfRequired(s, b, k);
      } else {
        var j := SeenEarlier(s, a, i, n.tool);
        OrderIrrelevantFor(s, a, b, j);
      }
    }
  }

  /** In an order that validates, the tool a declaration was skipped for had a record by then. */
  lemma NotTooEarly(s: Settings, decls: seq<Decl>, i: nat, n: Reason)
    requires DistinctNames(decls) && Validates(DeclaredAll(s, decls)) && i < |decls| && SkipReason(s, decls[i]).None?
    requires var seen := DeclaredAll(s, decls[..i])[decls[i].name := Record(decls[i], false, None)];
      MissingRequirement(seen, decls[i].needs) == Some(n)
    ensures n.Needs? && (n.tool == decls[i].name || n.tool in DeclaredAll(s, decls[..i]))
  {
    hide DeclaredAll;
    var d, final := decls[i], DeclaredAll(s, decls);
    var seen := DeclaredAll(s, decls[..i])[d.name := Record(d, false, None)];
    Decided(s, decls, i);
    MissingMeans(seen, d.needs);
    assert !IsProblem(final, Undefined(d.name, n.tool));
    assert !IsProblem(final, DefinedLater(d.name, n.tool));
  }

  /** ORDER IRRELEVANT.  Two registration orders of the same declarations that both validate
      register the same tools. */
  lemma SameToolsRegistered(s: Settings, a: seq<Decl>, b: seq<Decl>, name: string)
    requires DistinctNames(a) && DistinctNames(b) && SameDeclarations(a, b)
    requires Validates(DeclaredAll(s, a)) && Validates(DeclaredAll(s, b))
    ensures IsRegistered(DeclaredAll(s, a), name) <==> IsRegistered(DeclaredAll(s, b), name)
  {
    hide DeclaredAll, Validates;
    if i :| 0 <= i < |a| && a[i].name == name {
      OrderIrrelevantFor(s, a, b, i);
    } else {
      DeclaredNames(s, a);
      DeclaredNames(s, b);
      forall k | 0 <= k < |b| ensures b[k].name != name { assert b[k] in b; }
    }
  }

  /** Declaring every tool after those it requires always validates, whatever the settings. */
  lemma RequirementsFirstValidates(s: Settings, decls: seq<Decl>)
    requires DistinctNames(decls)
    requires forall i, r :: 0 <= i < |decls| && r in decls[i].needs ==> DeclaredBefore(decls, i, r)
    ensures Validates(DeclaredAll(s, decls))
  {
    hide DeclaredAll;
    var final := DeclaredAll(s, decls);
    forall p ensures !IsProblem(final, p) {
      if p.tool in final && p.required in final[p.tool].decl.needs {
        DeclaredNames(s, decls);
        var i :| 0 <= i < |decls| && decls[i].name == p.tool;
        Decided(s, decls, i);
        assert DeclaredBefore(decls, i, p.required);
        var seen := DeclaredAll(s, decls[..i])[p.tool := Record(decls[i], false, None)];
        MissingMeans(seen, decls[i].needs);
        DeclaredNames(s, decls[..i]);
        var j :| 0 <= j < i && decls[j].name == p.required;
        assert decls[..i][j].name == p.required;
        var k := SeenEarlier(s, decls, i, p.required);
      }
    }
  }

  ghost predicate DeclaredBefore(decls: seq<Decl>, i: int, name: string)
    requires 0 <= i < |decls|
  {
    exists j :: 0 <= j < i && decls[j].name == name
  }

  /** Another order of the same declarations, one that validates. */
  ghost predicate ValidAlternative(s: Settings, decls: seq<Decl>, other: seq<Decl>) {
    DistinctNames(other) && SameDeclarations(decls, other) && Validates(DeclaredAll(s, other))
  }

  /** Declared no later than a tool it requires, a tool is skipped; so an order that does this to a
      tool another valid order registers never validates. */
  lemma EarlyRequirementSkips(s: Settings, decls: seq<Decl>, i: nat, j: nat, other: seq<Decl>)
    requires DistinctNames(decls) && i <= j < |decls| && decls[j].name in decls[i].needs
    ensures !IsRegistered(DeclaredAll(s, decls), decls[i].name)
    ensures ValidAlternative(s, decls, other) && IsRegistered(DeclaredAll(s, other), decls[i].name) ==>
      !Validates(DeclaredAll(s, decls))
  {
    hide DeclaredAll, Validates;
    var d := decls[i];
    var seen := DeclaredAll(s, decls[..i])[d.name := Record(d, false, None)];
    Decided(s, decls, i);
    MissingMeans(seen, d.needs);
    if IsRegistered(seen, decls[j].name) {
      var k := SeenEarlier(s, decls, i, decls[j].name);
    }
    if ValidAlternative(s, decls, other) && Validates(DeclaredAll(s, decls)) {
      SameToolsRegistered(s, decls, other, d.name);
    }
  }

  lemma DeclaredTwo(s: Settings, a: Decl, b: Decl)
    ensures DeclaredAll(s, [a, b]) == Declared(s, Declared(s, map[], a), b)
  {
    assert [a, b][..1] == [a] && [a][..0] == [];
    assert DeclaredAll(s, [a]) == Declared(s, DeclaredAll(s, []), a);
  }

  /** Such orders exist under all settings that disable nothing: a read tool that requires a later one
      is skipped, the other way round it is registered. */
  lemma OrderDecides(s: Settings, name: string, area: string)
    requires s.disabled == {} && name != ""
    ensures var tool, needed := Decl(name, area, true, [""], true), Decl("", area, true, [], true);
      && !IsRegistered(DeclaredAll(s, [tool, needed]), name) && !Validates(DeclaredAll(s, [tool, needed]))
      && IsRegistered(DeclaredAll(s, [needed, tool]), name)
  {
    var tool, needed := Decl(name, area, true, [""], true), Decl("", area, true, [], true);
    DeclaredTwo(s, tool, needed);
    DeclaredTwo(s, needed, tool);
    hide DeclaredAll;
    assert tool.needs[1..] == [] && [""][0] == "";
    var early, first := Declared(s, map[], tool), Declared(s, map[], needed);
    assert early[name].skipped == Some(Needs("", None)) && first[""].registered;
    assert MissingRequirement(first[name := Record(tool, false, None)], [""]).None?;
    assert tool.needs == [""] && needed.needs == [];
    assert IsProblem(DeclaredAll(s, [tool, needed]), DefinedLater(name, ""));
  }
}
