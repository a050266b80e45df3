/** From tool requirements to role editor ticks, to the submitted role body, to the access rights
    the service stores for it. */
module RoleCompiler {
  import opened Strings
  import opened RoleCheck

  datatype Tick = R | W | D

  const ANY_PATH := "/.*"
  const RESTCONF_MARKER := "/restconf/"
  const BASELINE_APIS: set<string> := {"aaa_cw_role_read", "aaa_cwpassword", "aaa_selected_pref"}
  const ALPHABETICAL: seq<Method> := [DELETE, GET, PATCH, POST, PUT]

  /** What the service adds to a submitted role. */
  datatype Platform = Platform(templates: map<string, seq<Entry>>, baseline: map<string, seq<Entry>>,
                               postDelete: set<string>, notDelete: string)

  type Ticks = map<string, set<Tick>>

  /** The methods each tick adds to its row. */
  function TickMethods(t: Tick): set<Method> {
    match t
    case R => {GET}
    case W => {POST, PUT, PATCH}
    case D => {DELETE}
  }

  // -- classification ------------------------------------------------------------------------------

  /** template with each placeholder replaced: by `tail` in the last segment, by "abc" before. */
  function Concretised(template: string, tail: string): string
    decreases |template|
  {
    if template == "" then ""
    else if PLACEHOLDER <= template then
      (if '/' in template[2..] then "abc" else tail) + Concretised(template[2..], tail)
    else [template[0]] + Concretised(template[1..], tail)
  }

  function ConcretePath(template: string): string {
    Concretised(template, if Contains(template, RESTCONF_MARKER) then "a/b=c" else "abc")
  }

  predicate EntriesPermit(rx: Regexes, entries: seq<Entry>, m: Method, path: string) {
    exists e | e in entries :: m in e.methods && rx.search(e.url, path)
  }

  function TemplatesOf(p: Platform, api: string): seq<Entry> {
    if api in p.templates then p.templates[api] else []
  }

  /** The tick that permits one method of a path: Read covers a POST some read template permits. */
  function Classify(rx: Regexes, m: Method, path: string, api: string, p: Platform): Tick {
    match m
    case GET => R
    case POST => if EntriesPermit(rx, TemplatesOf(p, api), POST, ConcretePath(path)) then R else W
    case PUT => W
    case PATCH => W
    case DELETE => D
  }

  function RequirementTicks(rx: Regexes, r: Requirement, p: Platform): (t: set<Tick>)
    ensures t != {}
  {
    var ticks := set m | m in Needed(r) :: Classify(rx, m, r.path, r.api, p);
    assert Needed(r)[0] in Needed(r);
    assert Classify(rx, Needed(r)[0], r.path, r.api, p) in ticks;
    ticks
  }

  predicate HasTick(ticks: Ticks, api: string, t: Tick) {
    api in ticks && t in ticks[api]
  }

  /** Some requirement of the tools on the API needs the tick. */
  ghost predicate NeedsTick(rx: Regexes, tools: seq<Tool>, p: Platform, api: string, t: Tick) {
    exists tool, r :: tool in tools && r in tool.requirements && r.api == api && t in RequirementTicks(rx, r, p)
  }

  method TicksFor(rx: Regexes, tools: seq<Tool>, p: Platform) returns (ticks: Ticks)
    ensures IsTicks(rx, tools, p, ticks)
  {
    ticks := map[];
    assert tools[..0] == [];
    NoTools(rx, p);
    for i := 0 to |tools|
      invariant IsTicks(rx, tools[..i], p, ticks)
    {
      ghost var before := ticks;
      ticks := AddTicks(rx, tools[i].requirements, p, ticks);
      forall api, t ensures HasTick(ticks, api, t) <==> NeedsTick(rx, tools[..i + 1], p, api, t) {
        NeedsOneMore(rx, tools, i, p, api, t);
        assert HasTick(before, api, t) <==> NeedsTick(rx, tools[..i], p, api, t);
        assert HasTick(ticks, api, t)
          <==> HasTick(before, api, t) || ReqsNeed(rx, tools[i].requirements, p, api, t);
      }
    }
    assert tools[..|tools|] == tools;
  }

  /** One tool's requirements: ticks[req.api] |= requirement_ticks(req). */
  method AddTicks(rx: Regexes, reqs: seq<Requirement>, p: Platform, before: Ticks) returns (ticks: Ticks)
    requires NoEmptyRow(before)
    ensures forall api, t ::
      HasTick(ticks, api, t) <==> HasTick(before, api, t) || ReqsNeed(rx, reqs, p, api, t)
    ensures NoEmptyRow(ticks)
  {
    hide RequirementTicks, ReqsNeed;
    ticks := before;
    NoReqs(rx, p);
    for j := 0 to |reqs|
      invariant forall api, t ::
        HasTick(ticks, api, t) <==> HasTick(before, api, t) || ReqsNeed(rx, reqs[..j], p, api, t)
      invariant NoEmptyRow(ticks)
    {
      var r := reqs[j];
      ghost var sofar := ticks;
      ticks := ticks[r.api := (if r.api in ticks then ticks[r.api] else {}) + RequirementTicks(rx, r, p)];
      forall api, t ensures HasTick(ticks, api, t)
        <==> HasTick(before, api, t) || ReqsNeed(rx, reqs[..j + 1], p, api, t)
      {
        ReqsNeedOneMore(rx, reqs, j, p, api, t);
        assert HasTick(sofar, api, t) <==> HasTick(before, api, t) || ReqsNeed(rx, reqs[..j], p, api, t);
      }
    }
    assert reqs[..|reqs|] == reqs;
  }

  /** ticks lists, per API, exactly the ticks the tools need; an API without any has no row. */
  ghost predicate IsTicks(rx: Regexes, tools: seq<Tool>, p: Platform, ticks: Ticks) {
    && (forall api: string, t: Tick :: HasTick(ticks, api, t) <==> NeedsTick(rx, tools, p, api, t))
    && NoEmptyRow(ticks)
  }

  ghost predicate NoEmptyRow(ticks: Ticks) {
    forall api | api in ticks :: ticks[api] != {}
  }

  ghost predicate ReqsNeed(rx: Regexes, reqs: seq<Requirement>, p: Platform, api: string, t: Tick) {
    exists r :: r in reqs && r.api == api && t in RequirementTicks(rx, r, p)
  }

  lemma NoReqs(rx: Regexes, p: Platform)
    ensures forall api, t :: !ReqsNeed(rx, [], p, api, t)
  {}

  lemma NoTools(rx: Regexes, p: Platform)
    ensures IsTicks(rx, [], p, map[])
  {}

  lemma ReqsNeedOneMore(rx: Regexes, reqs: seq<Requirement>, j: nat, p: Platform, api: string, t: Tick)
    requires j < |reqs|
    ensures ReqsNeed(rx, reqs[..j + 1], p, api, t)
      <==> ReqsNeed(rx, reqs[..j], p, api, t) || (reqs[j].api == api && t in RequirementTicks(rx, reqs[j], p))
  {
    hide RequirementTicks;
    assert reqs[..j + 1] == reqs[..j] + [reqs[j]];
    assert reqs[j] in reqs[..j + 1];
  }

  lemma NeedsOneMore(rx: Regexes, tools: seq<Tool>, i: nat, p: Platform, api: string, t: Tick)
    requires i < |tools|
    ensures NeedsTick(rx, tools[..i + 1], p, api, t)
      <==> NeedsTick(rx, tools[..i], p, api, t) || ReqsNeed(rx, tools[i].requirements, p, api, t)
  {
    hide RequirementTicks;
    assert tools[..i + 1] == tools[..i] + [tools[i]];
    if ReqsNeed(rx, tools[i].requirements, p, api, t) {
      var r :| r in tools[i].requirements && r.api == api && t in RequirementTicks(rx, r, p);
      assert tools[i] in tools[..i + 1];
    }
    if NeedsTick(rx, tools[..i], p, api, t) {
      var tool, r :| tool in tools[..i] && r in tool.requirements && r.api == api && t in RequirementTicks(rx, r, p);
      assert tool in tools[..i + 1];
    }
  }

  datatype Lack = Lack(verb: Method, path: string, api: string, tick: Tick)

  function LackOf(rx: Regexes, ms: seq<Method>, r: Requirement, p: Platform): (l: seq<Lack>)
    ensures l == [] <==> forall m | m in ms :: Classify(rx, m, r.path, r.api, p) == R
  {
    if ms == [] then []
    else
      var tick := Classify(rx, ms[0], r.path, r.api, p);
      (if tick == R then [] else [Lack(ms[0], r.path, r.api, tick)]) + LackOf(rx, ms[1..], r, p)
  }

  function Lacking(rx: Regexes, reqs: seq<Requirement>, p: Platform): (l: seq<Lack>)
    ensures l == [] <==> forall r | r in reqs :: ReadCovers(rx, r, p)
  {
    if reqs == [] then []
    else
      var first, rest := LackOf(rx, Needed(reqs[0]), reqs[0], p), Lacking(rx, reqs[1..], p);
      assert first == [] <==> ReadCovers(rx, reqs[0], p);
      assert forall r :: r in reqs <==> r == reqs[0] || r in reqs[1..];
      assert first + rest == [] <==> first == [] && rest == [];
      first + rest
  }

  /** The Read tick permits every method of the requirement. */
  ghost predicate ReadCovers(rx: Regexes, r: Requirement, p: Platform) {
    forall m | m in Needed(r) :: Classify(rx, m, r.path, r.api, p) == R
  }

  /** What Read does not permit of a tool: its plain requirements and, when every alternative
      lacks something, those of the first.  Empty alternatives count here. */
  function NonReadRequirements(rx: Regexes, tool: Tool, p: Platform): seq<Lack> {
    var groups := tool.anyOf;
    var rows := Lacking(rx, OffApis(tool.requirements, Grouped(groups)), p);
    var perGroup := seq(|groups|, i requires 0 <= i < |groups| =>
      Lacking(rx, OnApis(tool.requirements, Members(groups[i])), p));
    if groups == [] || [] in perGroup then rows else rows + perGroup[0]
  }

  // -- role bodies ---------------------------------------------------------------------------------

  function InOrder(order: seq<Method>, wanted: set<Method>): (r: seq<Method>)
    ensures forall m :: m in r <==> m in order && m in wanted
  {
    if order == [] then [] else (if order[0] in wanted then [order[0]] else []) + InOrder(order[1..], wanted)
  }

  function MethodsOf(ticks: set<Tick>): set<Method> {
    set t, m | t in ticks && m in TickMethods(t) :: m
  }

  function AllowedUrlsFor(ticks: set<Tick>): seq<Entry> {
    var methods := InOrder(ALL_METHODS, MethodsOf(ticks));
    if methods == [] then [] else [Entry(ANY_PATH, methods)]
  }

  /** One row per API with ticks; the service adds the baseline rows itself. */
  function RoleBody(ticks: Ticks): Rights {
    map api | api in ticks && ticks[api] != {} && api !in BASELINE_APIS :: AllowedUrlsFor(ticks[api])
  }

  function SplitPostEntry(e: Entry, notDelete: string): seq<Entry> {
    [Entry(e.url, InOrder(ALPHABETICAL, (set m | m in e.methods) - {POST})), Entry(notDelete, [POST])]
  }

  predicate IsSplitRow(api: string, entries: seq<Entry>, p: Platform) {
    api in p.postDelete && |entries| == 1 && POST in entries[0].methods && DELETE !in entries[0].methods
  }

  function StoredRow(api: string, entries: seq<Entry>, p: Platform): seq<Entry> {
    var hasGet := exists e | e in entries :: GET in e.methods;
    var hasPost := exists e | e in entries :: POST in e.methods;
    if IsSplitRow(api, entries, p) then SplitPostEntry(entries[0], p.notDelete)
    else if hasGet && !hasPost then entries + TemplatesOf(p, api)
    else entries
  }

  /** The ticks each row of a body carries, read back from its methods. */
  function BodyTicks(body: Rights): Ticks {
    map api | api in body ::
      set t, e, m | e in body[api] && m in e.methods && t in {R, W, D} && m in TickMethods(t) :: t
  }

  /** The access rights the service stores for a submitted body. */
  function StoredAccessRights(body: Rights, p: Platform): Rights {
    map api | api in body.Keys + p.baseline.Keys ::
      if api in body then StoredRow(api, body[api], p) else p.baseline[api]
  }

  method StoreAccessRights(body: Rights, p: Platform) returns (rights: Rights)
    ensures rights == StoredAccessRights(body, p)
  {
    hide StoredRow;
    rights := map[];
    var todo := body.Keys;
    while todo != {}
      invariant todo <= body.Keys
      invariant rights == map api | api in body.Keys - todo :: StoredRow(api, body[api], p)
    {
      var api :| api in todo;
      rights := rights[api := StoredRow(api, body[api], p)];
      todo := todo - {api};
    }
    rights := AddBaseline(rights, p);
  }

  /** setdefault: a baseline row is added when the role has no row for its API. */
  method AddBaseline(given: Rights, p: Platform) returns (rights: Rights)
    ensures rights == p.baseline + given
  {
    rights := given;
    var todo := p.baseline.Keys;
    while todo != {}
      invariant todo <= p.baseline.Keys
      invariant rights == (map api | api in p.baseline.Keys - todo :: p.baseline[api]) + given
    {
      var api :| api in todo;
      if api !in rights { rights := rights[api := p.baseline[api]]; }
      todo := todo - {api};
    }
  }

  /** Some POST of the tool on a POST-delete API is refused by the not-delete pattern. */
  predicate SendsPostDelete(rx: Regexes, tool: Tool, p: Platform) {
    exists r | r in tool.requirements ::
      r.api in p.postDelete && POST in Needed(r) && !rx.search(p.notDelete, ConcretePath(r.path))
  }

  /** The Read tick on every row the tools touch. */
  function ReadOnly(ticks: Ticks): Ticks {
    map api | api in ticks :: {R}
  }
}
