/** The permission check: what each tool lacks under a role's access rights, and the report of
    the grants that would supply it.  Regular expressions are abstract. */
module RoleCheck {
  import opened Options
  import opened Strings

  datatype Method = GET | POST | PUT | PATCH | DELETE

  const ALL_METHODS: seq<Method> := [GET, POST, PUT, PATCH, DELETE]

  /** One request of a tool; method None is "*", passed through at run time. */
  datatype Requirement = Requirement(verb: Option<Method>, path: string, api: string)

  /** A url that is no string counts as one that does not compile. */
  datatype Entry = Entry(url: string, methods: seq<Method>)

  /** allowed_urls: an empty list restricts no path. */
  type Grant = seq<Entry>
  type Rights = map<string, Grant>

  datatype Tool = Tool(readOnly: bool, requirements: seq<Requirement>, anyOf: seq<seq<string>>)

  datatype Row = Row(req: Requirement, missing: seq<Method>)

  /** search: an unanchored search of the pattern in the path. */
  datatype Regexes = Regexes(compiles: string -> bool, search: (string, string) -> bool)

  const PLACEHOLDER := "{}"
  const SAMPLE := "_"

  lemma AllMethodsHas(m: Method)
    ensures m in ALL_METHODS
  {
    match m
    case GET => assert ALL_METHODS[0] == m;
    case POST => assert ALL_METHODS[1] == m;
    case PUT => assert ALL_METHODS[2] == m;
    case PATCH => assert ALL_METHODS[3] == m;
    case DELETE => assert ALL_METHODS[4] == m;
  }

  function Needed(r: Requirement): (ms: seq<Method>)
    ensures forall m :: m in ms <==> r.verb.None? || r.verb.value == m
  {
    assert forall m: Method :: m in ALL_METHODS by {
      forall m: Method ensures m in ALL_METHODS { AllMethodsHas(m); }
    }
    if r.verb.None? then ALL_METHODS else [r.verb.value]
  }

  function Sampled(path: string): string {
    Replaced(path, PLACEHOLDER, SAMPLE)
  }

  predicate Matches(rx: Regexes, e: Entry, path: string) {
    rx.compiles(e.url) && rx.search(e.url, path)
  }

  function AllowedMethods(rx: Regexes, grant: Grant, path: string): set<Method> {
    set e, m | e in grant && Matches(rx, e, path) && m in e.methods :: m
  }

  function Without(ms: seq<Method>, drop: set<Method>): (r: seq<Method>)
    ensures forall m :: m in r <==> m in ms && m !in drop
  {
    if ms == [] then []
    else (if ms[0] in drop then [] else [ms[0]]) + Without(ms[1..], drop)
  }

  function GrantOf(rights: Rights, api: string): Option<Grant> {
    if api in rights then Some(rights[api]) else None
  }

  function Missing(rx: Regexes, r: Requirement, grant: Option<Grant>): seq<Method> {
    if grant.None? then Needed(r)
    else if grant.value == [] then []
    else Without(Needed(r), AllowedMethods(rx, grant.value, Sampled(r.path)))
  }

  function MissingRows(rx: Regexes, reqs: seq<Requirement>, rights: Rights): seq<Row> {
    if reqs == [] then []
    else
      var lacking := Missing(rx, reqs[0], GrantOf(rights, reqs[0].api));
      (if lacking == [] then [] else [Row(reqs[0], lacking)]) + MissingRows(rx, reqs[1..], rights)
  }

  function OnApis(reqs: seq<Requirement>, apis: set<string>): (r: seq<Requirement>)
    ensures forall q :: q in r <==> q in reqs && q.api in apis
  {
    if reqs == [] then [] else (if reqs[0].api in apis then [reqs[0]] else []) + OnApis(reqs[1..], apis)
  }

  function OffApis(reqs: seq<Requirement>, apis: set<string>): (r: seq<Requirement>)
    ensures forall q :: q in r <==> q in reqs && q.api !in apis
  {
    if reqs == [] then [] else (if reqs[0].api in apis then [] else [reqs[0]]) + OffApis(reqs[1..], apis)
  }

  function Members(group: seq<string>): set<string> {
    set api | api in group
  }

  function Grouped(groups: seq<seq<string>>): set<string> {
    set g, api | g in groups && api in g :: api
  }

  /** The alternatives the check honours: empty groups are dropped. */
  function AnyOfGroups(groups: seq<seq<string>>): (r: seq<seq<string>>)
    ensures forall g :: g in r <==> g in groups && g != []
  {
    if groups == [] then [] else (if groups[0] == [] then [] else [groups[0]]) + AnyOfGroups(groups[1..])
  }

  function PerGroup(rx: Regexes, tool: Tool, groups: seq<seq<string>>, rights: Rights): seq<seq<Row>> {
    seq(|groups|, i requires 0 <= i < |groups| =>
      MissingRows(rx, OnApis(tool.requirements, Members(groups[i])), rights))
  }

  /** Everything a tool lacks: its plain requirements' rows and, when no alternative is fully
      permitted, those of the first alternative. */
  function ToolRows(rx: Regexes, tool: Tool, rights: Rights): seq<Row> {
    var groups := AnyOfGroups(tool.anyOf);
    var plain := MissingRows(rx, OffApis(tool.requirements, Grouped(groups)), rights);
    var perGroup := PerGroup(rx, tool, groups, rights);
    if groups == [] || [] in perGroup then plain else plain + perGroup[0]
  }

  // -- the code's loops --------------------------------------------------------------------------

  method MissingMethods(rx: Regexes, r: Requirement, grant: Option<Grant>) returns (lacking: seq<Method>)
    ensures lacking == Missing(rx, r, grant)
    ensures lacking == [] <==> grant.Some? && (grant.value == [] || forall m | m in Needed(r) ::
      exists e :: e in grant.value && Matches(rx, e, Sampled(r.path)) && m in e.methods)
  {
    if grant.None? { return Needed(r); }
    if grant.value == [] { return []; }
    var entries, path := grant.value, Sampled(r.path);
    var allowed: set<Method> := {};
    for i := 0 to |entries|
      invariant allowed == AllowedMethods(rx, entries[..i], path)
    {
      var e := entries[i];
      assert entries[..i + 1] == entries[..i] + [e];
      if Matches(rx, e, path) { allowed := allowed + set m | m in e.methods; }
    }
    assert entries[..|entries|] == entries;
    lacking := Without(Needed(r), allowed);
    if lacking != [] { assert lacking[0] in lacking; }
  }

  method FindMissingRows(rx: Regexes, reqs: seq<Requirement>, rights: Rights) returns (rows: seq<Row>)
    ensures rows == MissingRows(rx, reqs, rights)
  {
    hide MissingRows, Missing;
    rows := [];
    assert reqs[0..] == reqs;
    for i := 0 to |reqs|
      invariant rows + MissingRows(rx, reqs[i..], rights) == MissingRows(rx, reqs, rights)
    {
      NextRow(rx, reqs, i, rights);
      var r := reqs[i];
      var lacking := MissingMethods(rx, r, GrantOf(rights, r.api));
      if lacking != [] { rows := rows + [Row(r, lacking)]; }
    }
    assert reqs[|reqs|..] == [];
    NextRow(rx, [], 0, rights);
  }

  lemma NextRow(rx: Regexes, reqs: seq<Requirement>, i: nat, rights: Rights)
    ensures MissingRows(rx, [], rights) == []
    ensures i < |reqs| ==>
      var lacking := Missing(rx, reqs[i], GrantOf(rights, reqs[i].api));
      MissingRows(rx, reqs[i..], rights)
        == (if lacking == [] then [] else [Row(reqs[i], lacking)]) + MissingRows(rx, reqs[i + 1..], rights)
  {
    hide Missing;
    if i < |reqs| { assert reqs[i..][1..] == reqs[i + 1..]; }
  }

  method FindToolRows(rx: Regexes, tool: Tool, rights: Rights) returns (rows: seq<Row>)
    ensures rows == ToolRows(rx, tool, rights)
  {
    hide MissingRows, OffApis, OnApis, AnyOfGroups, Members, Grouped;
    var groups := AnyOfGroups(tool.anyOf);
    rows := FindMissingRows(rx, OffApis(tool.requirements, Grouped(groups)), rights);
    if groups == [] { return; }
    var perGroup: seq<seq<Row>> := [];
    for i := 0 to |groups|
      invariant perGroup == PerGroup(rx, tool, groups, rights)[..i]
    {
      var lacking := FindMissingRows(rx, OnApis(tool.requirements, Members(groups[i])), rights);
      perGroup := perGroup + [lacking];
    }
    if [] in perGroup { return; }
    rows := rows + perGroup[0];
  }

  /** grants: per API, the methods the refused tools lack. */
  datatype Verdict = Verdict(permitted: seq<string>, refused: seq<(string, seq<Row>)>, notInMap: seq<string>,
                             grants: map<string, set<Method>>)

  /** Some named tool of the map lacks method m on the API. */
  ghost predicate Lacks(rx: Regexes, names: seq<string>, tools: map<string, Tool>, rights: Rights, api: string,
                        m: Method) {
    exists name, row :: name in names && LacksFor(rx, name, tools, rights, api, m, row)
  }

  ghost predicate LacksFor(rx: Regexes, name: string, tools: map<string, Tool>, rights: Rights, api: string,
                           m: Method, row: Row) {
    name in tools && row in ToolRows(rx, tools[name], rights) && row.req.api == api && m in row.missing
  }

  /** The report lists exactly the methods the named tools lack, per API. */
  ghost predicate IsReport(rx: Regexes, names: seq<string>, tools: map<string, Tool>, rights: Rights,
                           grants: map<string, set<Method>>) {
    && (forall api, m :: (api in grants && m in grants[api]) <==> Lacks(rx, names, tools, rights, api, m))
    && NoEmptyRow(grants)
  }

  ghost predicate NoEmptyRow(grants: map<string, set<Method>>) {
    forall api | api in grants :: grants[api] != {}
  }

  /** The verdict over the names, in order. */
  function Permitted(rx: Regexes, names: seq<string>, tools: map<string, Tool>, rights: Rights): seq<string> {
    if names == [] then []
    else (if names[0] in tools && ToolRows(rx, tools[names[0]], rights) == [] then [names[0]] else [])
         + Permitted(rx, names[1..], tools, rights)
  }

  function Refused(rx: Regexes, names: seq<string>, tools: map<string, Tool>, rights: Rights): seq<(string, seq<Row>)> {
    if names == [] then []
    else (if names[0] in tools && ToolRows(rx, tools[names[0]], rights) != []
          then [(names[0], ToolRows(rx, tools[names[0]], rights))] else [])
         + Refused(rx, names[1..], tools, rights)
  }

  function Unknown(names: seq<string>, tools: map<string, Tool>): seq<string> {
    if names == [] then [] else (if names[0] in tools then [] else [names[0]]) + Unknown(names[1..], tools)
  }

  predicate IsRefused(rx: Regexes, names: seq<string>, tools: map<string, Tool>, rights: Rights, name: string,
                      rows: seq<Row>) {
    name in names && name in tools && rows == ToolRows(rx, tools[name], rights) && rows != []
  }

  /** Each name is permitted, refused with what it lacks, or unknown. */
  lemma {:induction false} VerdictMeans(rx: Regexes, names: seq<string>, tools: map<string, Tool>, rights: Rights, name: string)
    ensures name in Permitted(rx, names, tools, rights)
      <==> name in names && name in tools && ToolRows(rx, tools[name], rights) == []
    ensures forall rows :: (name, rows) in Refused(rx, names, tools, rights) <==> IsRefused(rx, names, tools, rights, name, rows)
    ensures name in Unknown(names, tools) <==> name in names && name !in tools
  {
    hide ToolRows;
    if names == [] {
    } else {
      VerdictMeans(rx, names[1..], tools, rights, name);
      assert name in names <==> name == names[0] || name in names[1..];
    }
  }

  /** The report updated with what one row lacks. */
  function Noted(grants: map<string, set<Method>>, row: Row): map<string, set<Method>> {
    var known := if row.req.api in grants then grants[row.req.api] else {};
    grants[row.req.api := known + (set m | m in row.missing)]
  }

  method EvaluateRbacMap(rx: Regexes, names: seq<string>, tools: map<string, Tool>, rights: Rights) returns (v: Verdict)
    ensures v.permitted == Permitted(rx, names, tools, rights)
    ensures v.refused == Refused(rx, names, tools, rights)
    ensures v.notInMap == Unknown(names, tools)
    ensures IsReport(rx, names, tools, rights, v.grants)
  {
    hide ToolRows, Permitted, Refused, Unknown, IsReport;
    var permitted, refused, notInMap, grants := [], [], [], map[];
    assert names[..0] == [] && names[0..] == names;
    NothingReported(rx, tools, rights);
    for i := 0 to |names|
      invariant permitted + Permitted(rx, names[i..], tools, rights) == Permitted(rx, names, tools, rights)
      invariant refused + Refused(rx, names[i..], tools, rights) == Refused(rx, names, tools, rights)
      invariant notInMap + Unknown(names[i..], tools) == Unknown(names, tools)
      invariant IsReport(rx, names[..i], tools, rights, grants)
    {
      var name := names[i];
      NextName(rx, names, i, tools, rights);
      assert names[..i + 1] == names[..i] + [name];
      if name !in tools {
        SameReport(rx, names[..i], name, tools, rights, grants);
        notInMap := notInMap + [name];
      } else {
        var rows := FindToolRows(rx, tools[name], rights);
        grants := NoteRows(rx, names[..i], name, tools, rights, rows, grants);
        if rows == [] { permitted := permitted + [name]; } else { refused := refused + [(name, rows)]; }
      }
    }
    assert names[..|names|] == names && names[|names|..] == [];
    NoNames(rx, tools, rights);
    v := Verdict(permitted, refused, notInMap, grants);
  }

  lemma NothingReported(rx: Regexes, tools: map<string, Tool>, rights: Rights)
    ensures IsReport(rx, [], tools, rights, map[])
  {}

  lemma NoNames(rx: Regexes, tools: map<string, Tool>, rights: Rights)
    ensures Permitted(rx, [], tools, rights) == [] && Refused(rx, [], tools, rights) == [] && Unknown([], tools) == []
  {}

  lemma NextName(rx: Regexes, names: seq<string>, i: nat, tools: map<string, Tool>, rights: Rights)
    requires i < |names|
    ensures var name, here, after := names[i], names[i..], names[i + 1..];
      var rows := if name in tools then ToolRows(rx, tools[name], rights) else [];
      && Unknown(here, tools) == (if name in tools then [] else [name]) + Unknown(after, tools)
      && Permitted(rx, here, tools, rights)
        == (if name in tools && rows == [] then [name] else []) + Permitted(rx, after, tools, rights)
      && Refused(rx, here, tools, rights)
        == (if name in tools && rows != [] then [(name, rows)] else []) + Refused(rx, after, tools, rights)
  {
    hide ToolRows;
    assert names[i..][1..] == names[i + 1..] && names[i..][0] == names[i];
  }

  method NoteRows(rx: Regexes, ghost names: seq<string>, name: string, ghost tools: map<string, Tool>,
                  ghost rights: Rights, rows: seq<Row>, before: map<string, set<Method>>)
    returns (grants: map<string, set<Method>>)
    requires name in tools && rows == ToolRows(rx, tools[name], rights)
    requires IsReport(rx, names, tools, rights, before)
    ensures IsReport(rx, names + [name], tools, rights, grants)
  {
    hide ToolRows, Lacks, LackedIn, Noted;
    grants := before;
    NoneLacked();
    for j := 0 to |rows|
      invariant NoEmptyRow(grants)
      invariant forall api, m ::
        (api in grants && m in grants[api]) <==> Lacks(rx, names, tools, rights, api, m) || LackedIn(rows[..j], api, m)
    {
      ghost var sofar := grants;
      RowMissing(rx, tools[name], rights, rows[j]);
      NotedRow(grants, rows[j]);
      grants := Noted(grants, rows[j]);
      forall api, m ensures (api in grants && m in grants[api])
        <==> Lacks(rx, names, tools, rights, api, m) || LackedIn(rows[..j + 1], api, m)
      {
        LackedInOneMore(rows, j, api, m);
        assert (api in sofar && m in sofar[api]) <==> Lacks(rx, names, tools, rights, api, m) || LackedIn(rows[..j], api, m);
        NotedMethods(sofar, rows[j], api, m);
      }
    }
    assert rows[..|rows|] == rows;
    forall api, m ensures Lacks(rx, names + [name], tools, rights, api, m)
      <==> Lacks(rx, names, tools, rights, api, m) || LackedIn(rows, api, m)
    {
      LacksOneMore(rx, names, name, tools, rights, api, m);
    }
  }

  ghost predicate LackedIn(rows: seq<Row>, api: string, m: Method) {
    exists row :: row in rows && row.req.api == api && m in row.missing
  }

  lemma NoneLacked()
    ensures forall api, m :: !LackedIn([], api, m)
  {}

  lemma NotedRow(grants: map<string, set<Method>>, row: Row)
    requires NoEmptyRow(grants) && row.missing != []
    ensures NoEmptyRow(Noted(grants, row))
  {
    var noted := Noted(grants, row);
    assert row.missing[0] in noted[row.req.api];
    forall api | api in noted ensures noted[api] != {} {}
  }

  lemma {:induction false} RowsMissing(rx: Regexes, reqs: seq<Requirement>, rights: Rights, row: Row)
    ensures row in MissingRows(rx, reqs, rights)
      <==> row.req in reqs && row.missing != [] && row.missing == Missing(rx, row.req, GrantOf(rights, row.req.api))
  {
    hide Missing;
    if reqs == [] {
    } else {
      RowsMissing(rx, reqs[1..], rights, row);
      assert row.req in reqs <==> row.req == reqs[0] || row.req in reqs[1..];
    }
  }

  /** A row names a requirement of the tool and exactly what it misses. */
  lemma RowMissing(rx: Regexes, tool: Tool, rights: Rights, row: Row)
    requires row in ToolRows(rx, tool, rights)
    ensures row.req in tool.requirements && row.missing != []
    ensures row.missing == Missing(rx, row.req, GrantOf(rights, row.req.api))
  {
    hide Missing;
    var groups := AnyOfGroups(tool.anyOf);
    RowsMissing(rx, OffApis(tool.requirements, Grouped(groups)), rights, row);
    if groups != [] {
      RowsMissing(rx, OnApis(tool.requirements, Members(groups[0])), rights, row);
    }
  }

  lemma NotedMethods(grants: map<string, set<Method>>, row: Row, api: string, m: Method)
    ensures var noted := Noted(grants, row);
      (api in noted && m in noted[api])
        <==> (api in grants && m in grants[api]) || (row.req.api == api && m in row.missing)
  {}

  lemma LackedInOneMore(rows: seq<Row>, j: nat, api: string, m: Method)
    requires j < |rows|
    ensures LackedIn(rows[..j + 1], api, m) <==> LackedIn(rows[..j], api, m) || (rows[j].req.api == api && m in rows[j].missing)
  {
    assert rows[..j + 1] == rows[..j] + [rows[j]];
    assert rows[j] in rows[..j + 1];
    forall row ensures row in rows[..j + 1] <==> row in rows[..j] || row == rows[j] {}
  }

  lemma LacksOneMore(rx: Regexes, names: seq<string>, name: string, tools: map<string, Tool>, rights: Rights,
                     api: string, m: Method)
    ensures Lacks(rx, names + [name], tools, rights, api, m)
      <==> Lacks(rx, names, tools, rights, api, m) || (name in tools && LackedIn(ToolRows(rx, tools[name], rights), api, m))
  {
    hide ToolRows;
    if n, row :| n in names + [name] && LacksFor(rx, n, tools, rights, api, m, row) {
      assert n in names || n == name;
    }
    if name in tools && LackedIn(ToolRows(rx, tools[name], rights), api, m) {
      var row :| row in ToolRows(rx, tools[name], rights) && row.req.api == api && m in row.missing;
      assert name in names + [name] && LacksFor(rx, name, tools, rights, api, m, row);
    }
    if n, row :| n in names && LacksFor(rx, n, tools, rights, api, m, row) {
      assert n in names + [name];
    }
  }

  lemma SameReport(rx: Regexes, names: seq<string>, name: string, tools: map<string, Tool>, rights: Rights,
                   grants: map<string, set<Method>>)
    requires name !in tools && IsReport(rx, names, tools, rights, grants)
    ensures IsReport(rx, names + [name], tools, rights, grants)
  {
    forall api, m ensures Lacks(rx, names + [name], tools, rights, api, m) <==> Lacks(rx, names, tools, rights, api, m) {
      LacksOneMore(rx, names, name, tools, rights, api, m);
    }
  }

  // -- what the verdict means --------------------------------------------------------------------

  /** The role lets the request through: the API is granted and, unless the grant restricts no
      path, each method it needs is listed on an entry whose url is found in the path. */
  ghost predicate Lets(rx: Regexes, rights: Rights, r: Requirement) {
    r.api in rights && (rights[r.api] == [] || forall m | m in Needed(r) :: MethodLet(rx, rights[r.api], r.path, m))
  }

  ghost predicate MethodLet(rx: Regexes, grant: Grant, path: string, m: Method) {
    exists e :: e in grant && Matches(rx, e, Sampled(path)) && m in e.methods
  }

  /** Every requirement outside the alternatives is let through, and so is every requirement of
      some alternative, if there are any. */
  ghost predicate Runs(rx: Regexes, tool: Tool, rights: Rights) {
    var groups := AnyOfGroups(tool.anyOf);
    && (forall r | r in tool.requirements && r.api !in Grouped(groups) :: Lets(rx, rights, r))
    && (groups == [] || exists g :: g in groups && LetsGroup(rx, tool, g, rights))
  }

  ghost predicate LetsGroup(rx: Regexes, tool: Tool, group: seq<string>, rights: Rights) {
    forall r | r in tool.requirements && r.api in group :: Lets(rx, rights, r)
  }

  lemma MissingIff(rx: Regexes, rights: Rights, r: Requirement)
    ensures Missing(rx, r, GrantOf(rights, r.api)) == [] <==> Lets(rx, rights, r)
  {
    var lacking := Missing(rx, r, GrantOf(rights, r.api));
    if r.api in rights && rights[r.api] != [] {
      var grant := rights[r.api];
      forall m ensures m in AllowedMethods(rx, grant, Sampled(r.path)) <==> MethodLet(rx, grant, r.path, m) {}
      if lacking != [] { assert lacking[0] in lacking; }
    }
    if r.api !in rights { assert Needed(r)[0] in Needed(r); }
  }

  lemma {:induction false} MissingRowsIff(rx: Regexes, reqs: seq<Requirement>, rights: Rights)
    ensures MissingRows(rx, reqs, rights) == [] <==> forall r | r in reqs :: Lets(rx, rights, r)
  {
    if reqs == [] {
    } else {
      MissingIff(rx, rights, reqs[0]);
      MissingRowsIff(rx, reqs[1..], rights);
      assert forall r :: r in reqs <==> r == reqs[0] || r in reqs[1..];
    }
  }

  lemma PerGroupIff(rx: Regexes, tool: Tool, groups: seq<seq<string>>, rights: Rights)
    ensures |PerGroup(rx, tool, groups, rights)| == |groups|
    ensures forall i | 0 <= i < |groups| ::
      PerGroup(rx, tool, groups, rights)[i] == [] <==> LetsGroup(rx, tool, groups[i], rights)
  {
    hide Lets, Missing, MissingRows;
    forall i | 0 <= i < |groups|
      ensures PerGroup(rx, tool, groups, rights)[i] == [] <==> LetsGroup(rx, tool, groups[i], rights)
    {
      MissingRowsIff(rx, OnApis(tool.requirements, Members(groups[i])), rights);
    }
  }

  /** A tool lacks nothing exactly when the role runs it. */
  lemma ToolRowsIffRuns(rx: Regexes, tool: Tool, rights: Rights)
    ensures ToolRows(rx, tool, rights) == [] <==> Runs(rx, tool, rights)
  {
    hide Lets, LetsGroup, Missing, MissingRows, PerGroup, OffApis, AnyOfGroups;
    var groups := AnyOfGroups(tool.anyOf);
    var perGroup := PerGroup(rx, tool, groups, rights);
    MissingRowsIff(rx, OffApis(tool.requirements, Grouped(groups)), rights);
    PerGroupIff(rx, tool, groups, rights);
    SomeGroup(rx, tool, groups, rights, perGroup);
    var plain := MissingRows(rx, OffApis(tool.requirements, Grouped(groups)), rights);
    if groups == [] || [] in perGroup {
      assert ToolRows(rx, tool, rights) == plain;
    } else {
      assert perGroup[0] in perGroup && perGroup[0] != [];
      assert (plain + perGroup[0])[|plain|] == perGroup[0][0];
    }
  }

  lemma SomeGroup(rx: Regexes, tool: Tool, groups: seq<seq<string>>, rights: Rights, perGroup: seq<seq<Row>>)
    requires |perGroup| == |groups|
    requires forall i | 0 <= i < |groups| :: perGroup[i] == [] <==> LetsGroup(rx, tool, groups[i], rights)
    ensures [] in perGroup <==> exists g :: g in groups && LetsGroup(rx, tool, g, rights)
  {
    hide LetsGroup;
    if [] in perGroup {
      var i :| 0 <= i < |perGroup| && perGroup[i] == [];
      assert groups[i] in groups;
    }
    if g :| g in groups && LetsGroup(rx, tool, g, rights) {
      var i :| 0 <= i < |groups| && groups[i] == g;
      assert perGroup[i] == [];
    }
  }

  // -- what is listed ----------------------------------------------------------------------------

  /** A requirement misses exactly the methods it needs that the role does not let through. */
  lemma MissingMeans(rx: Regexes, rights: Rights, r: Requirement, m: Method)
    ensures m in Missing(rx, r, GrantOf(rights, r.api))
      <==> m in Needed(r) && (r.api !in rights || (rights[r.api] != [] && !MethodLet(rx, rights[r.api], r.path, m)))
  {
    if r.api in rights {
      var grant := rights[r.api];
      assert m in AllowedMethods(rx, grant, Sampled(r.path)) <==> MethodLet(rx, grant, r.path, m);
    }
  }

  /** The first alternative the check honours names the API. */
  ghost predicate InFirstGroup(groups: seq<seq<string>>, api: string) {
    exists i :: 0 <= i < |groups| && api in groups[i] && FirstGroup(groups, i)
  }

  predicate FirstGroup(groups: seq<seq<string>>, i: nat)
    requires i < |groups|
  {
    forall j | 0 <= j < i :: groups[j] == []
  }

  /** WHAT A REFUSED TOOL IS TOLD.  The rows listed for a tool are those of its requirements that miss
      something and are plain, or, when the role lets no alternative through, are on an API of the first
      one. */
  lemma ToolRowsAre(rx: Regexes, tool: Tool, rights: Rights, row: Row)
    ensures row in ToolRows(rx, tool, rights)
      <==> row.req in tool.requirements && row.missing != []
           && row.missing == Missing(rx, row.req, GrantOf(rights, row.req.api))
           && if row.req.api !in Grouped(tool.anyOf) then true
              else InFirstGroup(tool.anyOf, row.req.api)
                   && forall g | g in tool.anyOf && g != [] :: !LetsGroup(rx, tool, g, rights)
  {
    var groups := AnyOfGroups(tool.anyOf);
    assert Grouped(groups) == Grouped(tool.anyOf);
    FirstGroupKept(tool.anyOf, row.req.api);
    hide Missing, MissingRows, Lets, LetsGroup, AnyOfGroups, InFirstGroup, PerGroup;
    RowsMissing(rx, OffApis(tool.requirements, Grouped(groups)), rights, row);
    PerGroupIff(rx, tool, groups, rights);
    SomeGroup(rx, tool, groups, rights, PerGroup(rx, tool, groups, rights));
    if groups != [] {
      FirstGroupRows(rx, tool, groups, rights, row);
      assert groups[0] in groups;
    }
  }

  lemma FirstGroupRows(rx: Regexes, tool: Tool, groups: seq<seq<string>>, rights: Rights, row: Row)
    requires groups != []
    ensures |PerGroup(rx, tool, groups, rights)| == |groups|
    ensures row in PerGroup(rx, tool, groups, rights)[0]
      <==> row.req in tool.requirements && row.req.api in groups[0] && row.missing != []
           && row.missing == Missing(rx, row.req, GrantOf(rights, row.req.api))
  {
    hide Missing, MissingRows;
    RowsMissing(rx, OnApis(tool.requirements, Members(groups[0])), rights, row);
  }

  lemma {:induction false} FirstGroupKept(groups: seq<seq<string>>, api: string)
    ensures InFirstGroup(groups, api) <==> AnyOfGroups(groups) != [] && api in AnyOfGroups(groups)[0]
  {
    if groups == [] {
    } else {
      FirstGroupKept(groups[1..], api);
      if groups[0] == [] {
        if InFirstGroup(groups, api) {
          var i :| 0 <= i < |groups| && api in groups[i] && FirstGroup(groups, i);
          assert api in groups[1..][i - 1] && FirstGroup(groups[1..], i - 1);
        }
        if InFirstGroup(groups[1..], api) {
          var i :| 0 <= i < |groups[1..]| && api in groups[1..][i] && FirstGroup(groups[1..], i);
          assert api in groups[i + 1] && forall j | 0 < j < i + 1 :: groups[j] == groups[1..][j - 1];
        }
      } else if api in groups[0] {
        assert api in groups[0] && FirstGroup(groups, 0);
      }
    }
  }
}
