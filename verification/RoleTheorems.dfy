/** What the generated roles and the repair report guarantee, for every catalogue, tool map and
    captured platform. */
module RoleTheorems {
  import opened Options
  import opened Strings
  import opened RoleCheck
  import opened RoleCompiler

  // -- what the generator checks of its input ----------------------------------------------------

  /** Python's `/.*` compiles and is found in every path with a slash. */
  ghost predicate AnyPathMatches(rx: Regexes) {
    rx.compiles(ANY_PATH) && forall path: string :: '/' in path ==> rx.search(ANY_PATH, path)
  }

  /** sanitise_platform: urls compile, and a read template is a POST entry. */
  ghost predicate Sanitised(rx: Regexes, p: Platform) {
    && rx.compiles(p.notDelete)
    && (forall api, e | api in p.templates && e in p.templates[api] :: rx.compiles(e.url) && e.methods == [POST])
  }

  /** A path in the map is a path, and the patterns of the platform do not tell the two sample
      substitutions of its placeholders apart. */
  ghost predicate SamplesAlike(rx: Regexes, p: Platform, r: Requirement) {
    && '/' in r.path
    && rx.search(p.notDelete, Sampled(r.path)) == rx.search(p.notDelete, ConcretePath(r.path))
    && forall e | e in TemplatesOf(p, r.api) :: rx.search(e.url, Sampled(r.path)) == rx.search(e.url, ConcretePath(r.path))
  }

  lemma {:induction false} ReplacingKeepsSlash(s: string)
    requires '/' in s
    ensures '/' in Sampled(s)
    decreases |s|
  {
    if PLACEHOLDER <= s {
      assert s == PLACEHOLDER + s[2..];
      ReplacingKeepsSlash(s[2..]);
      assert Sampled(s) == SAMPLE + Sampled(s[2..]);
    } else if s[0] != '/' {
      assert s == [s[0]] + s[1..];
      ReplacingKeepsSlash(s[1..]);
      assert Sampled(s) == [s[0]] + Sampled(s[1..]);
    } else {
      assert Sampled(s) == [s[0]] + Sampled(s[1..]);
    }
  }

  // -- one stored row ------------------------------------------------------------------------------

  /** The row the service stores for an API with these ticks. */
  function RowFor(api: string, ticks: set<Tick>, p: Platform): seq<Entry> {
    StoredRow(api, AllowedUrlsFor(ticks), p)
  }

  /** The ticked row permits a method its tick covers: directly, through a read template, or, where
      the row is split, which it is not with Delete ticked, through the not-delete pattern. */
  lemma TickedRowLets(rx: Regexes, p: Platform, r: Requirement, ticks: set<Tick>, m: Method)
    requires AnyPathMatches(rx) && Sanitised(rx, p) && SamplesAlike(rx, p, r)
    requires Classify(rx, m, r.path, r.api, p) in ticks
    requires m == POST && r.api in p.postDelete && D !in ticks ==> rx.search(p.notDelete, ConcretePath(r.path))
    ensures MethodLet(rx, RowFor(r.api, ticks, p), r.path, m)
  {
    ReplacingKeepsSlash(r.path);
    MethodsTicked(ticks);
    var methods := InOrder(ALL_METHODS, MethodsOf(ticks));
    if m in methods {
      ListedMethodLet(rx, p, r, methods, m);
    } else {
      TemplateMethodLet(rx, p, r, methods);
    }
  }

  lemma MethodsTicked(ticks: set<Tick>)
    ensures forall m :: m in InOrder(ALL_METHODS, MethodsOf(ticks)) <==> m in MethodsOf(ticks)
    ensures GET in MethodsOf(ticks) <==> R in ticks
    ensures forall m | m in {POST, PUT, PATCH} :: m in MethodsOf(ticks) <==> W in ticks
    ensures DELETE in MethodsOf(ticks) <==> D in ticks
  {
    forall t, m ensures t in ticks && m in TickMethods(t) ==> m in MethodsOf(ticks) {}
    assert GET in TickMethods(R) && POST in TickMethods(W) && PUT in TickMethods(W) && PATCH in TickMethods(W);
    assert DELETE in TickMethods(D);
    forall m: Method ensures m in ALL_METHODS { AllMethodsHas(m); }
  }

  lemma ListedMethodLet(rx: Regexes, p: Platform, r: Requirement, methods: seq<Method>, m: Method)
    requires AnyPathMatches(rx) && Sanitised(rx, p) && SamplesAlike(rx, p, r) && '/' in Sampled(r.path) && m in methods
    requires m == POST && r.api in p.postDelete && DELETE !in methods ==> rx.search(p.notDelete, ConcretePath(r.path))
    ensures MethodLet(rx, StoredRow(r.api, [Entry(ANY_PATH, methods)], p), r.path, m)
  {
    hide Concretised, ConcretePath, Sampled, Contains;
    var row := [Entry(ANY_PATH, methods)];
    var stored := StoredRow(r.api, row, p);
    AlphabeticalHas(m);
    var e := if IsSplitRow(r.api, row, p) && m == POST then stored[1] else stored[0];
    assert e in stored && Matches(rx, e, Sampled(r.path)) && m in e.methods;
  }

  /** A POST that a read template permits, on a row without Write. */
  lemma TemplateMethodLet(rx: Regexes, p: Platform, r: Requirement, methods: seq<Method>)
    requires Sanitised(rx, p) && SamplesAlike(rx, p, r) && GET in methods && POST !in methods
    requires EntriesPermit(rx, TemplatesOf(p, r.api), POST, ConcretePath(r.path))
    ensures MethodLet(rx, StoredRow(r.api, [Entry(ANY_PATH, methods)], p), r.path, POST)
  {
    hide Concretised, ConcretePath, Sampled, Contains;
    var row := [Entry(ANY_PATH, methods)];
    assert row[0] in row;
    var e :| e in TemplatesOf(p, r.api) && POST in e.methods && rx.search(e.url, ConcretePath(r.path));
    assert e in StoredRow(r.api, row, p) && Matches(rx, e, Sampled(r.path));
  }

  lemma AlphabeticalHas(m: Method)
    ensures m in ALPHABETICAL
  {
    match m
    case DELETE => assert ALPHABETICAL[0] == m;
    case GET => assert ALPHABETICAL[1] == m;
    case PATCH => assert ALPHABETICAL[2] == m;
    case POST => assert ALPHABETICAL[3] == m;
    case PUT => assert ALPHABETICAL[4] == m;
  }

  /** NO MORE THAN TICKED.  A row permits a method only if one of its ticks lists it, or Read is ticked
      and a read template permits the POST; and on a POST-delete API Write without Delete permits no
      POST the not-delete pattern refuses. */
  lemma TickedRowOnly(rx: Regexes, p: Platform, r: Requirement, ticks: set<Tick>, m: Method)
    requires Sanitised(rx, p) && SamplesAlike(rx, p, r) && ticks != {} && MethodLet(rx, RowFor(r.api, ticks, p), r.path, m)
    ensures m in MethodsOf(ticks)
      || (m == POST && R in ticks && EntriesPermit(rx, TemplatesOf(p, r.api), POST, ConcretePath(r.path)))
    ensures m == POST && r.api in p.postDelete && W in ticks && D !in ticks ==> rx.search(p.notDelete, ConcretePath(r.path))
  {
    hide Concretised, ConcretePath, Sampled, Contains, StoredRow, InOrder, MethodsOf;
    MethodsTicked(ticks);
    SomeMethodTicked(ticks);
    var methods := InOrder(ALL_METHODS, MethodsOf(ticks));
    assert AllowedUrlsFor(ticks) == [Entry(ANY_PATH, methods)];
    var e :| e in RowFor(r.api, ticks, p) && Matches(rx, e, Sampled(r.path)) && m in e.methods;
    StoredEntries(r.api, methods, p, e);
  }

  lemma SomeMethodTicked(ticks: set<Tick>)
    requires ticks != {}
    ensures InOrder(ALL_METHODS, MethodsOf(ticks)) != []
  {
    MethodsTicked(ticks);
    var t :| t in ticks;
    var m := match t case R => GET case W => PUT case D => DELETE;
    assert m in TickMethods(t) && m in MethodsOf(ticks);
  }

  /** Where the entries of a stored single-entry row come from. */
  lemma StoredEntries(api: string, methods: seq<Method>, p: Platform, e: Entry)
    requires e in StoredRow(api, [Entry(ANY_PATH, methods)], p)
    ensures if api in p.postDelete && POST in methods && DELETE !in methods
      then (e == Entry(p.notDelete, [POST])) || (forall m | m in e.methods :: m in methods && m != POST)
      else e == Entry(ANY_PATH, methods) || (e in TemplatesOf(p, api) && GET in methods && POST !in methods)
  {
    var row := [Entry(ANY_PATH, methods)];
    assert row[0] in row && forall x | x in row :: x == row[0];
  }

  /** A Read row permits exactly what the Read tick covers. */
  lemma ReadRowExact(rx: Regexes, p: Platform, r: Requirement, m: Method)
    requires AnyPathMatches(rx) && Sanitised(rx, p) && SamplesAlike(rx, p, r)
    ensures MethodLet(rx, RowFor(r.api, {R}, p), r.path, m) <==> Classify(rx, m, r.path, r.api, p) == R
  {
    hide Sanitised, MethodLet, RowFor, Classify;
    if MethodLet(rx, RowFor(r.api, {R}, p), r.path, m) { ReadRowOnly(rx, p, r, m); }
    if Classify(rx, m, r.path, r.api, p) == R { ReadRowAll(rx, p, r, m); }
  }

  lemma ReadRowOnly(rx: Regexes, p: Platform, r: Requirement, m: Method)
    requires Sanitised(rx, p) && SamplesAlike(rx, p, r) && MethodLet(rx, RowFor(r.api, {R}, p), r.path, m)
    ensures Classify(rx, m, r.path, r.api, p) == R
  {
    hide RowFor, Concretised, ConcretePath, Sampled, Contains;
    ReadRowEntries(r.api, p);
    var e :| e in RowFor(r.api, {R}, p) && Matches(rx, e, Sampled(r.path)) && m in e.methods;
    if e in TemplatesOf(p, r.api) {
      assert e.methods == [POST] && rx.search(e.url, ConcretePath(r.path));
      assert EntriesPermit(rx, TemplatesOf(p, r.api), POST, ConcretePath(r.path));
    } else {
      assert e == Entry(ANY_PATH, [GET]);
    }
  }

  lemma ReadRowAll(rx: Regexes, p: Platform, r: Requirement, m: Method)
    requires AnyPathMatches(rx) && Sanitised(rx, p) && SamplesAlike(rx, p, r) && Classify(rx, m, r.path, r.api, p) == R
    ensures MethodLet(rx, RowFor(r.api, {R}, p), r.path, m)
  {
    hide RowFor, Concretised, ConcretePath, Sampled, Contains;
    ReplacingKeepsSlash(r.path);
    ReadRowEntries(r.api, p);
    var e := Entry(ANY_PATH, [GET]);
    if m != GET {
      e :| e in TemplatesOf(p, r.api) && POST in e.methods && rx.search(e.url, ConcretePath(r.path));
    }
    assert e in RowFor(r.api, {R}, p) && Matches(rx, e, Sampled(r.path)) && m in e.methods;
  }

  lemma ReadRowEntries(api: string, p: Platform)
    ensures RowFor(api, {R}, p) == [Entry(ANY_PATH, [GET])] + TemplatesOf(p, api)
  {
    ReadUrls();
    hide AllowedUrlsFor;
    var row := Entry(ANY_PATH, [GET]);
    assert row in [row] && GET in row.methods && POST !in row.methods;
  }

  lemma ReadUrls()
    ensures AllowedUrlsFor({R}) == [Entry(ANY_PATH, [GET])]
  {
    TickedUrls({R});
    hide AllowedUrlsFor;
    assert [GET] + [] + [] == [GET];
  }

  /** The method, if it is wanted. */
  function Picked(m: Method, wanted: bool): seq<Method> {
    if wanted then [m] else []
  }

  /** One entry for any path lists the ticked methods in the editor's order: Read adds GET, Write POST, PUT
      and PATCH, Delete DELETE. */
  lemma TickedUrls(ticks: set<Tick>)
    ensures AllowedUrlsFor(ticks) == if ticks == {} then [] else
      [Entry("/.*", (if R in ticks then [GET] else []) + (if W in ticks then [POST, PUT, PATCH] else [])
                    + if D in ticks then [DELETE] else [])]
  {
    MethodsTicked(ticks);
    InEditorOrder(MethodsOf(ticks));
    hide MethodsOf, InOrder;
    PickedTicks(R in ticks, W in ticks, D in ticks);
    if t :| t in ticks { SomeTick(ticks, t); }
  }

  lemma SomeTick(ticks: set<Tick>, t: Tick)
    requires t in ticks
    ensures R in ticks || W in ticks || D in ticks
  {
    match t case R => case W => case D =>
  }

  lemma PickedTicks(r: bool, w: bool, d: bool)
    ensures Picked(GET, r) + (Picked(POST, w) + (Picked(PUT, w) + (Picked(PATCH, w) + (Picked(DELETE, d) + []))))
      == (if r then [GET] else []) + (if w then [POST, PUT, PATCH] else []) + if d then [DELETE] else []
  {}

  lemma InEditorOrder(wanted: set<Method>)
    ensures InOrder(ALL_METHODS, wanted)
      == Picked(GET, GET in wanted) + (Picked(POST, POST in wanted) + (Picked(PUT, PUT in wanted)
         + (Picked(PATCH, PATCH in wanted) + (Picked(DELETE, DELETE in wanted) + []))))
  {
    hide InOrder, Picked;
    assert ALL_METHODS == [GET] + [POST, PUT, PATCH, DELETE];
    NextInOrder(GET, [POST, PUT, PATCH, DELETE], wanted);
    assert [POST, PUT, PATCH, DELETE] == [POST] + [PUT, PATCH, DELETE];
    NextInOrder(POST, [PUT, PATCH, DELETE], wanted);
    assert [PUT, PATCH, DELETE] == [PUT] + [PATCH, DELETE];
    NextInOrder(PUT, [PATCH, DELETE], wanted);
    assert [PATCH, DELETE] == [PATCH] + [DELETE];
    NextInOrder(PATCH, [DELETE], wanted);
    assert [DELETE] == [DELETE] + [];
    NextInOrder(DELETE, [], wanted);
  }

  lemma InAlphabeticalOrder(wanted: set<Method>)
    ensures InOrder(ALPHABETICAL, wanted)
      == Picked(DELETE, DELETE in wanted) + (Picked(GET, GET in wanted) + (Picked(PATCH, PATCH in wanted)
         + (Picked(POST, POST in wanted) + (Picked(PUT, PUT in wanted) + []))))
  {
    hide InOrder, Picked;
    assert ALPHABETICAL == [DELETE] + [GET, PATCH, POST, PUT];
    NextInOrder(DELETE, [GET, PATCH, POST, PUT], wanted);
    assert [GET, PATCH, POST, PUT] == [GET] + [PATCH, POST, PUT];
    NextInOrder(GET, [PATCH, POST, PUT], wanted);
    assert [PATCH, POST, PUT] == [PATCH] + [POST, PUT];
    NextInOrder(PATCH, [POST, PUT], wanted);
    assert [POST, PUT] == [POST] + [PUT];
    NextInOrder(POST, [PUT], wanted);
    assert [PUT] == [PUT] + [];
    NextInOrder(PUT, [], wanted);
  }

  lemma NextInOrder(m: Method, rest: seq<Method>, wanted: set<Method>)
    ensures InOrder([m] + rest, wanted) == Picked(m, m in wanted) + InOrder(rest, wanted)
    ensures InOrder([], wanted) == []
  {
    assert ([m] + rest)[1..] == rest;
  }

  /** THE STORED ROWS.  What the service stores for each set of ticks: the one entry, followed by the read
      templates if Read but not Write is ticked; and where the API deletes by POST and Write but not Delete
      is ticked, POST moved to an entry of its own that the not-delete pattern guards. */
  lemma StoredRows(api: string, ticks: set<Tick>, p: Platform)
    requires ticks != {}
    ensures RowFor(api, ticks, p) ==
      if api in p.postDelete && W in ticks && D !in ticks then
        [Entry("/.*", (if R in ticks then [GET] else []) + [PATCH, PUT]), Entry(p.notDelete, [POST])]
      else
        AllowedUrlsFor(ticks) + if R in ticks && W !in ticks then TemplatesOf(p, api) else []
  {
    hide AllowedUrlsFor, InOrder, TemplatesOf, StoredRow, EditorMethods;
    TickedUrls(ticks);
    var methods := EditorMethods(R in ticks, W in ticks, D in ticks);
    assert AllowedUrlsFor(ticks) == [Entry(ANY_PATH, methods)] by { EditorMethodsAre(ticks); }
    EditorHas(R in ticks, W in ticks, D in ticks);
    OneEntryRow(api, methods, p);
    if W in ticks && D !in ticks { WithoutPost((set m | m in methods) - {POST}, R in ticks); }
  }

  function EditorMethods(r: bool, w: bool, d: bool): seq<Method> {
    (if r then [GET] else []) + (if w then [POST, PUT, PATCH] else []) + if d then [DELETE] else []
  }

  lemma EditorMethodsAre(ticks: set<Tick>)
    ensures EditorMethods(R in ticks, W in ticks, D in ticks)
      == (if R in ticks then [GET] else []) + (if W in ticks then [POST, PUT, PATCH] else []) + if D in ticks then [DELETE] else []
  {}

  lemma EditorHas(r: bool, w: bool, d: bool)
    ensures var methods := EditorMethods(r, w, d);
      && (GET in methods <==> r) && (DELETE in methods <==> d)
      && (POST in methods <==> w) && (PUT in methods <==> w) && (PATCH in methods <==> w)
  {
    assert [POST, PUT, PATCH][0] == POST && [POST, PUT, PATCH][1] == PUT && [POST, PUT, PATCH][2] == PATCH;
    assert [DELETE][0] == DELETE && [GET][0] == GET;
  }

  /** What the service makes of a row of one entry. */
  lemma OneEntryRow(api: string, methods: seq<Method>, p: Platform)
    ensures StoredRow(api, [Entry(ANY_PATH, methods)], p) ==
      if api in p.postDelete && POST in methods && DELETE !in methods then
        [Entry(ANY_PATH, InOrder(ALPHABETICAL, (set m | m in methods) - {POST})), Entry(p.notDelete, [POST])]
      else [Entry(ANY_PATH, methods)] + if GET in methods && POST !in methods then TemplatesOf(p, api) else []
  {
    hide InOrder, TemplatesOf;
    var row := [Entry(ANY_PATH, methods)];
    assert row[0] in row && forall e | e in row :: e == row[0];
  }

  lemma WithoutPost(wanted: set<Method>, read: bool)
    requires (GET in wanted <==> read) && PATCH in wanted && PUT in wanted && POST !in wanted && DELETE !in wanted
    ensures InOrder(ALPHABETICAL, wanted) == (if read then [GET] else []) + [PATCH, PUT]
  {
    InAlphabeticalOrder(wanted);
    hide InOrder;
  }

  lemma {:induction false} NoneInOrder(order: seq<Method>, wanted: set<Method>)
    requires forall m | m in order :: m !in wanted
    ensures InOrder(order, wanted) == []
  {
    if order == [] {
    } else {
      NoneInOrder(order[1..], wanted);
    }
  }

  /** Reading a body's ticks back: the rows carry the ticks they were built from. */
  lemma BodyCarriesTicks(ticks: Ticks)
    ensures BodyTicks(RoleBody(ticks)) == map api | api in ticks && ticks[api] != {} && api !in BASELINE_APIS :: ticks[api]
  {
    hide AllowedUrlsFor;
    var body := RoleBody(ticks);
    forall api | api in body ensures BodyTicks(body)[api] == ticks[api] {
      RowCarriesTicks(ticks[api]);
      assert body[api] == AllowedUrlsFor(ticks[api]);
    }
  }

  lemma RowCarriesTicks(ticks: set<Tick>)
    ensures (set t, e, m | e in AllowedUrlsFor(ticks) && m in e.methods && t in {R, W, D} && m in TickMethods(t) :: t) == ticks
  {
    hide AllowedUrlsFor, EditorMethods;
    var row, methods := AllowedUrlsFor(ticks), EditorMethods(R in ticks, W in ticks, D in ticks);
    if ticks == {} {
      assert row == [] by { TickedUrls(ticks); }
    } else {
      assert row == [Entry(ANY_PATH, methods)] by { TickedUrls(ticks); EditorMethodsAre(ticks); }
      assert row[0] in row && forall e | e in row :: e == row[0];
      EditorHas(R in ticks, W in ticks, D in ticks);
      forall t ensures (exists m :: m in methods && m in TickMethods(t)) <==> t in ticks {
        match t
        case R => assert GET in TickMethods(R);
        case W => assert PUT in TickMethods(W);
        case D => assert DELETE in TickMethods(D);
      }
    }
  }

  // -- least privilege -----------------------------------------------------------------------------

  /** Some tool sends a request with method m on the API. */
  ghost predicate Sends(tools: seq<Tool>, api: string, m: Method) {
    exists tool, r :: tool in tools && r in tool.requirements && r.api == api && m in Needed(r)
  }

  predicate ReadsByPost(rx: Regexes, p: Platform, api: string, path: string) {
    EntriesPermit(rx, TemplatesOf(p, api), POST, ConcretePath(path))
  }

  /** Some tool sends a POST there that reads, by a read template, or one that does not. */
  ghost predicate SendsPost(rx: Regexes, tools: seq<Tool>, p: Platform, api: string, byPost: bool) {
    exists tool, r :: tool in tools && r in tool.requirements && r.api == api && POST in Needed(r)
      && ReadsByPost(rx, p, api, r.path) == byPost
  }

  ghost predicate SendsRead(rx: Regexes, tools: seq<Tool>, p: Platform, api: string) {
    Sends(tools, api, GET) || SendsPost(rx, tools, p, api, true)
  }

  ghost predicate SendsWrite(rx: Regexes, tools: seq<Tool>, p: Platform, api: string) {
    Sends(tools, api, PUT) || Sends(tools, api, PATCH) || SendsPost(rx, tools, p, api, false)
  }

  /** What the ticks stand for: Read for a GET or a POST that reads, Write for a PUT, a PATCH or any other
      POST, Delete for a DELETE. */
  lemma TicksMean(rx: Regexes, tools: seq<Tool>, p: Platform, ticks: Ticks, api: string)
    requires IsTicks(rx, tools, p, ticks)
    ensures HasTick(ticks, api, R) <==> SendsRead(rx, tools, p, api)
    ensures HasTick(ticks, api, W) <==> SendsWrite(rx, tools, p, api)
    ensures HasTick(ticks, api, D) <==> Sends(tools, api, DELETE)
  {
    hide EntriesPermit, TemplatesOf, ConcretePath, Needed, RequirementTicks;
    NeededByTick(rx, tools, p, api, R);
    NeededByTick(rx, tools, p, api, W);
    NeededByTick(rx, tools, p, api, D);
  }

  lemma NeededByTick(rx: Regexes, tools: seq<Tool>, p: Platform, api: string, t: Tick)
    ensures NeedsTick(rx, tools, p, api, t) <==> match t
      case R => SendsRead(rx, tools, p, api)
      case W => SendsWrite(rx, tools, p, api)
      case D => Sends(tools, api, DELETE)
  {
    hide EntriesPermit, TemplatesOf, ConcretePath, Needed;
    if NeedsTick(rx, tools, p, api, t) {
      var tool, r :| tool in tools && r in tool.requirements && r.api == api && t in RequirementTicks(rx, r, p);
      var m :| m in Needed(r) && Classify(rx, m, r.path, r.api, p) == t;
      assert Sends(tools, api, m);
      assert m == POST ==> SendsPost(rx, tools, p, api, ReadsByPost(rx, p, api, r.path));
    }
    forall tool, r, m | tool in tools && r in tool.requirements && r.api == api && m in Needed(r)
      && Classify(rx, m, r.path, r.api, p) == t
      ensures NeedsTick(rx, tools, p, api, t)
    {
      NeedsItsTick(rx, r, p, m);
    }
  }

  /** Why the operator role may let a method through on an API that no tool's request names literally. */
  ghost predicate Justified(rx: Regexes, tools: seq<Tool>, p: Platform, api: string, path: string, m: Method) {
    match m
    case GET => SendsRead(rx, tools, p, api)
    case POST =>
      if SendsWrite(rx, tools, p, api)
      then api in p.postDelete && !Sends(tools, api, DELETE) ==> rx.search(p.notDelete, Sampled(path))
      else SendsRead(rx, tools, p, api) && MethodLet(rx, TemplatesOf(p, api), path, POST)
    case DELETE => Sends(tools, api, DELETE)
    case _ => SendsWrite(rx, tools, p, api)
  }

  /** LEAST PRIVILEGE.  On every API the platform does not grant anyway, the stored operator role restricts
      paths and methods, and lets exactly those methods through for which some tool's requests give a reason. */
  lemma OperatorRoleLeast(rx: Regexes, p: Platform, tools: seq<Tool>, ticks: Ticks, api: string, path: string, m: Method)
    requires AnyPathMatches(rx) && Sanitised(rx, p) && IsTicks(rx, tools, p, ticks) && '/' in path
    requires api !in BASELINE_APIS && api !in p.baseline
    ensures var rights := StoredAccessRights(RoleBody(ticks), p);
      && (api in rights ==> rights[api] != [])
      && ((api in rights && MethodLet(rx, rights[api], path, m)) <==> Justified(rx, tools, p, api, path, m))
  {
    hide RequirementTicks, EntriesPermit, TemplatesOf, ConcretePath, Needed, Sampled, AllowedUrlsFor, StoredRow;
    TicksMean(rx, tools, p, ticks, api);
    var rights := StoredAccessRights(RoleBody(ticks), p);
    assert api in rights <==> api in ticks;
    if api in ticks {
      assert rights[api] == RowFor(api, ticks[api], p);
      RowLets(rx, p, api, ticks[api], path, m);
    }
  }

  /** What a stored row lets through, by its ticks. */
  lemma RowLets(rx: Regexes, p: Platform, api: string, ticks: set<Tick>, path: string, m: Method)
    requires AnyPathMatches(rx) && Sanitised(rx, p) && ticks != {} && '/' in path
    ensures RowFor(api, ticks, p) != []
    ensures MethodLet(rx, RowFor(api, ticks, p), path, m) <==> match m
      case GET => R in ticks
      case POST =>
        if W in ticks then api in p.postDelete && D !in ticks ==> rx.search(p.notDelete, Sampled(path))
        else R in ticks && MethodLet(rx, TemplatesOf(p, api), path, POST)
      case DELETE => D in ticks
      case _ => W in ticks
  {
    RowEntries(api, ticks, p);
    EntryMethods(ticks, Splits(api, ticks, p), m);
    ReplacingKeepsSlash(path);
    hide Sampled, RowFor, TemplatesOf, FirstMethods, MethodLet;
    var any, rest := Entry(ANY_PATH, FirstMethods(ticks, Splits(api, ticks, p))), FurtherEntries(api, ticks, p);
    LetByEither(rx, any, rest, path, m);
    if Splits(api, ticks, p) {
      LetByEither(rx, Entry(p.notDelete, [POST]), [], path, m);
      assert rest == [Entry(p.notDelete, [POST])] + [];
    }
    LetByNone(rx, path, m);
    if MethodLet(rx, TemplatesOf(p, api), path, m) { OnlyPostTemplates(rx, p, api, path, m); }
  }

  lemma LetByEither(rx: Regexes, e: Entry, rest: seq<Entry>, path: string, m: Method)
    ensures MethodLet(rx, [e] + rest, path, m)
      <==> (Matches(rx, e, Sampled(path)) && m in e.methods) || MethodLet(rx, rest, path, m)
  {
    assert forall x :: x in [e] + rest <==> x == e || x in rest;
  }

  lemma LetByNone(rx: Regexes, path: string, m: Method)
    ensures !MethodLet(rx, [], path, m)
  {}

  lemma OnlyPostTemplates(rx: Regexes, p: Platform, api: string, path: string, m: Method)
    requires Sanitised(rx, p) && MethodLet(rx, TemplatesOf(p, api), path, m)
    ensures m == POST
  {}

  predicate Splits(api: string, ticks: set<Tick>, p: Platform) {
    api in p.postDelete && W in ticks && D !in ticks
  }

  /** The methods of a stored row's first entry, and the entries after it. */
  function FirstMethods(ticks: set<Tick>, split: bool): seq<Method> {
    (if R in ticks then [GET] else [])
    + (if W !in ticks then [] else if split then [PATCH, PUT] else [POST, PUT, PATCH])
    + if D in ticks then [DELETE] else []
  }

  function FurtherEntries(api: string, ticks: set<Tick>, p: Platform): seq<Entry> {
    if Splits(api, ticks, p) then [Entry(p.notDelete, [POST])]
    else if R in ticks && W !in ticks then TemplatesOf(p, api)
    else []
  }

  lemma RowEntries(api: string, ticks: set<Tick>, p: Platform)
    requires ticks != {}
    ensures RowFor(api, ticks, p) == [Entry(ANY_PATH, FirstMethods(ticks, Splits(api, ticks, p)))] + FurtherEntries(api, ticks, p)
  {
    StoredRows(api, ticks, p);
    TickedUrls(ticks);
    hide AllowedUrlsFor, StoredRow, RowFor, TemplatesOf;
    var read := if R in ticks then [GET] else [];
    assert read + [PATCH, PUT] + [] == read + [PATCH, PUT];
  }

  lemma EntryMethods(ticks: set<Tick>, split: bool, m: Method)
    ensures m in FirstMethods(ticks, split) <==> match m
      case GET => R in ticks
      case POST => W in ticks && !split
      case DELETE => D in ticks
      case _ => W in ticks
  {
    WriteMethods(split, m);
    hide FirstMethods;
    var read, write, delete := Picked(GET, R in ticks), if W in ticks then WriteOf(split) else [], Picked(DELETE, D in ticks);
    assert FirstMethods(ticks, split) == read + write + delete by { FirstMethodsAre(ticks, split); }
  }

  function WriteOf(split: bool): seq<Method> {
    if split then [PATCH, PUT] else [POST, PUT, PATCH]
  }

  lemma FirstMethodsAre(ticks: set<Tick>, split: bool)
    ensures FirstMethods(ticks, split) == Picked(GET, R in ticks) + (if W in ticks then WriteOf(split) else [])
      + Picked(DELETE, D in ticks)
  {}

  lemma WriteMethods(split: bool, m: Method)
    ensures m in WriteOf(split) <==> m == PUT || m == PATCH || (m == POST && !split)
  {
    var write := WriteOf(split);
    assert write[|write| - 1] in write && write[|write| - 2] in write;
  }

  // -- the operator role ---------------------------------------------------------------------------

  /** The hypotheses on one tool of the map under which the operator role must run it. */
  ghost predicate Expected(rx: Regexes, p: Platform, tool: Tool) {
    && !SendsPostDelete(rx, tool, p)
    && forall r | r in tool.requirements ::
         && SamplesAlike(rx, p, r)
         && (r.api in BASELINE_APIS ==> Lets(rx, p.baseline, r))
  }

  /** OPERATOR ROLE COMPLETE.  The evaluator refuses no tool under the rights stored for the ticks
      all tools need: split rows, added templates and alternatives included. */
  lemma OperatorRoleComplete(rx: Regexes, p: Platform, tools: seq<Tool>, ticks: Ticks, tool: Tool)
    requires AnyPathMatches(rx) && Sanitised(rx, p) && (forall t | t in tools :: Expected(rx, p, t))
    requires IsTicks(rx, tools, p, ticks) && tool in tools
    ensures ToolRows(rx, tool, StoredAccessRights(RoleBody(ticks), p)) == []
  {
    var rights := StoredAccessRights(RoleBody(ticks), p);
    forall r | r in tool.requirements ensures Lets(rx, rights, r) {
      assert Expected(rx, p, tool);
      OperatorLets(rx, p, tools, ticks, tool, r);
    }
    var groups := AnyOfGroups(tool.anyOf);
    if groups != [] { assert groups[0] in groups && LetsGroup(rx, tool, groups[0], rights); }
    assert Runs(rx, tool, rights);
    ToolRowsIffRuns(rx, tool, rights);
  }

  lemma OperatorLets(rx: Regexes, p: Platform, tools: seq<Tool>, ticks: Ticks, tool: Tool, r: Requirement)
    requires AnyPathMatches(rx) && Sanitised(rx, p) && Expected(rx, p, tool)
    requires IsTicks(rx, tools, p, ticks) && tool in tools && r in tool.requirements
    ensures Lets(rx, StoredAccessRights(RoleBody(ticks), p), r)
  {
    hide RequirementTicks, StoredRow;
    var rights := StoredAccessRights(RoleBody(ticks), p);
    if r.api in BASELINE_APIS {
      assert r.api !in RoleBody(ticks);
      assert rights[r.api] == p.baseline[r.api];
    } else {
      forall t | t in RequirementTicks(rx, r, p) ensures r.api in ticks && t in ticks[r.api] {
        assert NeedsTick(rx, tools, p, r.api, t);
      }
      var some :| some in RequirementTicks(rx, r, p);
      assert HasTick(ticks, r.api, some);
      assert rights[r.api] == RowFor(r.api, ticks[r.api], p);
      forall m | m in Needed(r) ensures MethodLet(rx, rights[r.api], r.path, m) {
        assert Classify(rx, m, r.path, r.api, p) in RequirementTicks(rx, r, p) by { NeedsItsTick(rx, r, p, m); }
        TickedRowLets(rx, p, r, ticks[r.api], m);
      }
    }
  }

  lemma NeedsItsTick(rx: Regexes, r: Requirement, p: Platform, m: Method)
    requires m in Needed(r)
    ensures Classify(rx, m, r.path, r.api, p) in RequirementTicks(rx, r, p)
  {}

  // -- the read-only role --------------------------------------------------------------------------

  /** A baseline row permits exactly what Read would. */
  ghost predicate BaselineReads(rx: Regexes, p: Platform, r: Requirement) {
    r.api in BASELINE_APIS ==> (Lets(rx, p.baseline, r) <==> ReadCovers(rx, r, p))
  }

  ghost predicate ReadExpected(rx: Regexes, p: Platform, tool: Tool) {
    forall r | r in tool.requirements :: SamplesAlike(rx, p, r) && BaselineReads(rx, p, r)
  }

  /** The read-only role lets a requirement of a read tool through exactly when Read covers it. */
  lemma ReadOnlyLetsExactly(rx: Regexes, p: Platform, tools: seq<Tool>, ticks: Ticks, tool: Tool, r: Requirement)
    requires AnyPathMatches(rx) && Sanitised(rx, p) && ReadExpected(rx, p, tool)
    requires IsTicks(rx, tools, p, ticks) && tool in tools && r in tool.requirements
    ensures Lets(rx, StoredAccessRights(RoleBody(ReadOnly(ticks)), p), r) <==> ReadCovers(rx, r, p)
  {
    hide RequirementTicks, StoredRow, Classify;
    var rights := StoredAccessRights(RoleBody(ReadOnly(ticks)), p);
    if r.api in BASELINE_APIS {
      assert r.api !in RoleBody(ReadOnly(ticks));
      assert r.api in rights <==> r.api in p.baseline;
      assert Lets(rx, rights, r) <==> Lets(rx, p.baseline, r);
    } else {
      var t :| t in RequirementTicks(rx, r, p);
      assert NeedsTick(rx, tools, p, r.api, t);
      assert rights[r.api] == RowFor(r.api, {R}, p);
      ReadRowEntries(r.api, p);
      assert rights[r.api] != [];
      forall m ensures MethodLet(rx, rights[r.api], r.path, m) <==> Classify(rx, m, r.path, r.api, p) == R {
        ReadRowExact(rx, p, r, m);
      }
    }
  }

  /** What the generator's classification says: nothing plain is beyond Read, and some
      alternative, empty ones included, is all Read. */
  ghost predicate ReadSuffices(rx: Regexes, p: Platform, tool: Tool) {
    && (forall r | r in tool.requirements && r.api !in Grouped(tool.anyOf) :: ReadCovers(rx, r, p))
    && (tool.anyOf == [] || exists g :: g in tool.anyOf && ReadGroup(rx, p, tool, g))
  }

  ghost predicate ReadGroup(rx: Regexes, p: Platform, tool: Tool, g: seq<string>) {
    forall r | r in tool.requirements && r.api in g :: ReadCovers(rx, r, p)
  }

  lemma NonReadIff(rx: Regexes, p: Platform, tool: Tool)
    ensures NonReadRequirements(rx, tool, p) == [] <==> ReadSuffices(rx, p, tool)
  {
    hide ReadCovers, Lacking, OffApis;
    var groups := tool.anyOf;
    var rows := Lacking(rx, OffApis(tool.requirements, Grouped(groups)), p);
    var perGroup := seq(|groups|, i requires 0 <= i < |groups| =>
      Lacking(rx, OnApis(tool.requirements, Members(groups[i])), p));
    forall i | 0 <= i < |groups| ensures perGroup[i] == [] <==> ReadGroup(rx, p, tool, groups[i]) {}
    if [] in perGroup {
      var i :| 0 <= i < |perGroup| && perGroup[i] == [];
      assert groups[i] in groups;
    } else if groups != [] {
      assert perGroup[0] in perGroup && perGroup[0] != [];
      assert (rows + perGroup[0])[|rows|] == perGroup[0][0];
      forall g | g in groups ensures !ReadGroup(rx, p, tool, g) {
        var i :| 0 <= i < |groups| && groups[i] == g;
        assert perGroup[i] in perGroup;
      }
    }
  }

  /** What the classification says of a request: Read for a GET and a POST that reads, Write for a PUT, a
      PATCH and any other POST, Delete for a DELETE. */
  lemma ClassifyMeans(rx: Regexes, m: Method, path: string, api: string, p: Platform)
    ensures Classify(rx, m, path, api, p) == R <==> m == GET || (m == POST && ReadsByPost(rx, p, api, path))
    ensures Classify(rx, m, path, api, p) == W <==> m in {PUT, PATCH} || (m == POST && !ReadsByPost(rx, p, api, path))
    ensures Classify(rx, m, path, api, p) == D <==> m == DELETE
  {
    hide EntriesPermit, TemplatesOf, ConcretePath;
  }

  /** What the generator lists against a tool: each method beyond Read of its plain requirements and, when
      every alternative needs more than Read, of those of the first. */
  lemma NonReadAre(rx: Regexes, tool: Tool, p: Platform, lack: Lack)
    ensures lack in NonReadRequirements(rx, tool, p)
      <==> exists r :: r in tool.requirements && LackedBy(rx, r, p, lack) && Counts(rx, tool, p, r)
  {
    hide LackedBy, Lacking, ReadCovers, ReadGroup;
    var groups := tool.anyOf;
    var perGroup := seq(|groups|, i requires 0 <= i < |groups| =>
      Lacking(rx, OnApis(tool.requirements, Members(groups[i])), p));
    var plain := OffApis(tool.requirements, Grouped(groups));
    LackingMeans(rx, plain, p, lack);
    GroupsRead(rx, p, tool, perGroup);
    if groups != [] {
      LackingMeans(rx, OnApis(tool.requirements, Members(groups[0])), p, lack);
      assert groups[0] in groups;
    }
  }

  ghost predicate Counts(rx: Regexes, tool: Tool, p: Platform, r: Requirement) {
    r.api in Grouped(tool.anyOf) ==>
      tool.anyOf != [] && r.api in tool.anyOf[0] && forall g | g in tool.anyOf :: !ReadGroup(rx, p, tool, g)
  }

  predicate LackedBy(rx: Regexes, r: Requirement, p: Platform, lack: Lack) {
    && lack.verb in Needed(r) && lack.path == r.path && lack.api == r.api
    && lack.tick == Classify(rx, lack.verb, r.path, r.api, p) != R
  }

  lemma GroupsRead(rx: Regexes, p: Platform, tool: Tool, perGroup: seq<seq<Lack>>)
    requires |perGroup| == |tool.anyOf|
    requires forall i | 0 <= i < |perGroup| ::
      perGroup[i] == Lacking(rx, OnApis(tool.requirements, Members(tool.anyOf[i])), p)
    ensures [] in perGroup <==> exists g :: g in tool.anyOf && ReadGroup(rx, p, tool, g)
  {
    hide ReadCovers;
    forall i | 0 <= i < |perGroup| ensures perGroup[i] == [] <==> ReadGroup(rx, p, tool, tool.anyOf[i]) {}
    if i :| 0 <= i < |perGroup| && perGroup[i] == [] { assert tool.anyOf[i] in tool.anyOf; }
    if g :| g in tool.anyOf && ReadGroup(rx, p, tool, g) {
      var i :| 0 <= i < |perGroup| && tool.anyOf[i] == g;
      assert perGroup[i] == [];
    }
  }

  lemma {:induction false} LackingMeans(rx: Regexes, reqs: seq<Requirement>, p: Platform, lack: Lack)
    ensures lack in Lacking(rx, reqs, p) <==> exists r :: r in reqs && LackedBy(rx, r, p, lack)
  {
    hide Classify, ReadCovers;
    if reqs == [] {
    } else {
      LackingMeans(rx, reqs[1..], p, lack);
      LackOfMeans(rx, Needed(reqs[0]), reqs[0], p, lack);
      assert lack in Lacking(rx, reqs, p) <==> LackedBy(rx, reqs[0], p, lack) || lack in Lacking(rx, reqs[1..], p);
      hide Lacking, LackedBy;
      assert forall r :: r in reqs <==> r == reqs[0] || r in reqs[1..];
    }
  }

  lemma {:induction false} LackOfMeans(rx: Regexes, ms: seq<Method>, r: Requirement, p: Platform, lack: Lack)
    ensures lack in LackOf(rx, ms, r, p)
      <==> lack.verb in ms && lack.path == r.path && lack.api == r.api
           && lack.tick == Classify(rx, lack.verb, r.path, r.api, p) != R
  {
    hide Classify;
    if ms == [] {
    } else {
      LackOfMeans(rx, ms[1..], r, p, lack);
    }
  }

  /** READ-ONLY, LITERALLY.  On every API the platform does not grant anyway, the stored read-only role lets
      through GET, and POST on the paths of a read template, if some tool uses the API, and nothing else. */
  lemma ReadOnlyRoleLets(rx: Regexes, p: Platform, tools: seq<Tool>, ticks: Ticks, api: string, path: string, m: Method)
    requires AnyPathMatches(rx) && Sanitised(rx, p) && IsTicks(rx, tools, p, ticks) && '/' in path
    requires api !in BASELINE_APIS && api !in p.baseline
    ensures var rights := StoredAccessRights(RoleBody(ReadOnly(ticks)), p);
      && (api in rights ==> rights[api] != [])
      && (api in rights <==> exists tool, r :: tool in tools && r in tool.requirements && r.api == api)
      && (api in rights ==> (MethodLet(rx, rights[api], path, m)
           <==> m == GET || (m == POST && MethodLet(rx, TemplatesOf(p, api), path, POST))))
  {
    hide RequirementTicks, EntriesPermit, TemplatesOf, ConcretePath, Needed, Sampled, AllowedUrlsFor, StoredRow;
    var rights := StoredAccessRights(RoleBody(ReadOnly(ticks)), p);
    assert api in rights <==> api in ticks;
    if api in ticks {
      assert rights[api] == RowFor(api, {R}, p);
      RowLets(rx, p, api, {R}, path, m);
      var t :| t in ticks[api];
      assert HasTick(ticks, api, t);
    }
    forall tool, r | tool in tools && r in tool.requirements && r.api == api ensures api in ticks {
      var t :| t in RequirementTicks(rx, r, p);
      assert NeedsTick(rx, tools, p, api, t);
      assert HasTick(ticks, api, t);
    }
  }

  /** READ-ONLY ROLE EXACT.  Under the stored read-only role the evaluator permits a read tool
      exactly when its classification leaves nothing beyond Read, provided no alternative of the
      tool is empty. */
  lemma ReadOnlyRoleExact(rx: Regexes, p: Platform, tools: seq<Tool>, ticks: Ticks, tool: Tool)
    requires AnyPathMatches(rx) && Sanitised(rx, p) && ReadExpected(rx, p, tool)
    requires IsTicks(rx, tools, p, ticks) && tool in tools && [] !in tool.anyOf
    ensures ToolRows(rx, tool, StoredAccessRights(RoleBody(ReadOnly(ticks)), p)) == []
      <==> NonReadRequirements(rx, tool, p) == []
  {
    ReadOnlyVerdict(rx, p, tools, ticks, tool);
    NonReadIff(rx, p, tool);
    hide ToolRows, NonReadRequirements, StoredAccessRights, ReadGroup, ReadCovers;
    SameGroups(tool.anyOf);
  }

  /** The evaluator's verdict on a read tool, whatever its alternatives: it looks at the non-empty
      ones only. */
  lemma ReadOnlyVerdict(rx: Regexes, p: Platform, tools: seq<Tool>, ticks: Ticks, tool: Tool)
    requires AnyPathMatches(rx) && Sanitised(rx, p) && ReadExpected(rx, p, tool)
    requires IsTicks(rx, tools, p, ticks) && tool in tools
    ensures ToolRows(rx, tool, StoredAccessRights(RoleBody(ReadOnly(ticks)), p)) == []
      <==> ReadSuffices(rx, p, tool.(anyOf := AnyOfGroups(tool.anyOf)))
  {
    var rights := StoredAccessRights(RoleBody(ReadOnly(ticks)), p);
    forall r | r in tool.requirements ensures Lets(rx, rights, r) <==> ReadCovers(rx, r, p) {
      ReadOnlyLetsExactly(rx, p, tools, ticks, tool, r);
    }
    ToolRowsIffRuns(rx, tool, rights);
    hide ToolRows, StoredAccessRights, Lets, ReadCovers, AnyOfGroups;
    var groups := AnyOfGroups(tool.anyOf);
    var seen := tool.(anyOf := groups);
    forall g ensures LetsGroup(rx, tool, g, rights) <==> ReadGroup(rx, p, seen, g) {}
  }

  lemma SameGroups(groups: seq<seq<string>>)
    requires [] !in groups
    ensures AnyOfGroups(groups) == groups
  {
    if groups != [] { assert groups[0] in groups; }
  }

  /** With an empty alternative the two disagree on exactly the tools whose plain requirements are
      all Read while every other alternative, and there is one, needs more. */
  lemma EmptyAlternativeDisagrees(rx: Regexes, p: Platform, tools: seq<Tool>, ticks: Ticks, tool: Tool)
    requires AnyPathMatches(rx) && Sanitised(rx, p) && ReadExpected(rx, p, tool)
    requires IsTicks(rx, tools, p, ticks) && tool in tools && [] in tool.anyOf
    ensures var refused := ToolRows(rx, tool, StoredAccessRights(RoleBody(ReadOnly(ticks)), p)) != [];
      var readOnly := NonReadRequirements(rx, tool, p) == [];
      && (!refused ==> readOnly)
      && (refused && readOnly <==>
            && (forall r | r in tool.requirements && r.api !in Grouped(tool.anyOf) :: ReadCovers(rx, r, p))
            && AnyOfGroups(tool.anyOf) != []
            && forall g | g in tool.anyOf && g != [] :: !ReadGroup(rx, p, tool, g))
  {
    ReadOnlyVerdict(rx, p, tools, ticks, tool);
    NonReadIff(rx, p, tool);
    hide ToolRows, NonReadRequirements, StoredAccessRights, ReadCovers;
    var seen := tool.(anyOf := AnyOfGroups(tool.anyOf));
    assert Grouped(seen.anyOf) == Grouped(tool.anyOf);
    assert ReadGroup(rx, p, tool, []);
    forall g ensures ReadGroup(rx, p, tool, g) <==> ReadGroup(rx, p, seen, g) {}
  }

  /** A tool that only writes, as one of two alternatives of which the other is empty. */
  const WRITE_OR_NOTHING := Tool(true, [Requirement(Some(PUT), "/w", "w")], [[], ["w"]])

  /** Such a tool is read-only to the classification and refused by the check, on a platform that adds
      nothing to a role. */
  lemma EmptyAlternativeExample() returns (rx: Regexes, p: Platform, ticks: Ticks)
    ensures AnyPathMatches(rx) && Sanitised(rx, p) && ReadExpected(rx, p, WRITE_OR_NOTHING)
    ensures IsTicks(rx, [WRITE_OR_NOTHING], p, ticks)
    ensures NonReadRequirements(rx, WRITE_OR_NOTHING, p) == []
    ensures ToolRows(rx, WRITE_OR_NOTHING, StoredAccessRights(RoleBody(ReadOnly(ticks)), p)) != []
  {
    hide NonReadRequirements, ToolRows, StoredAccessRights, RoleBody, ReadOnly, Sampled, ConcretePath;
    rx := Regexes(url => true, (url, path) => true);
    p := Platform(map[], map[], {}, "");
    ticks := map["w" := {W}];
    var tool, r := WRITE_OR_NOTHING, Requirement(Some(PUT), "/w", "w");
    assert tool.requirements == [r] && '/' in r.path by { assert r.path[0] == '/'; }
    WriteTicks(rx, p, ticks);
    assert [] == tool.anyOf[0] && ["w"] == tool.anyOf[1];
    assert "w" in ["w"] && "w" in Grouped(tool.anyOf);
    assert PUT in Needed(r) && Classify(rx, PUT, r.path, r.api, p) == W;
    EmptyAlternativeDisagrees(rx, p, [tool], ticks, tool);
  }

  lemma WriteTicks(rx: Regexes, p: Platform, ticks: Ticks)
    requires p.templates == map[] && ticks == map["w" := {W}]
    ensures IsTicks(rx, [WRITE_OR_NOTHING], p, ticks)
  {
    var r := Requirement(Some(PUT), "/w", "w");
    assert Classify(rx, PUT, r.path, r.api, p) == W;
    assert RequirementTicks(rx, r, p) == {W} by { NeedsItsTick(rx, r, p, PUT); }
    forall api, t ensures HasTick(ticks, api, t) <==> NeedsTick(rx, [WRITE_OR_NOTHING], p, api, t) {
      if HasTick(ticks, api, t) {
        assert WRITE_OR_NOTHING in [WRITE_OR_NOTHING] && r in WRITE_OR_NOTHING.requirements;
      }
    }
  }

  /** What the platform's own baseline rows permit of a request is covered by Read. */
  ghost predicate BaselineOnlyReads(rx: Regexes, p: Platform, m: Method, path: string, api: string) {
    api in p.baseline && EntriesPermit(rx, p.baseline[api], m, ConcretePath(path)) ==> Classify(rx, m, path, api, p) == R
  }

  /** The read-only role permits no request beyond Read, whichever tool sends it, on baseline APIs
      too when their rows do not. */
  lemma ReadOnlyPermitsOnlyRead(rx: Regexes, p: Platform, ticks: Ticks, m: Method, path: string, api: string)
    requires Sanitised(rx, p) && p.baseline.Keys <= BASELINE_APIS
    requires api in BASELINE_APIS ==> BaselineOnlyReads(rx, p, m, path, api)
    requires var rights := StoredAccessRights(RoleBody(ReadOnly(ticks)), p);
      api in rights && EntriesPermit(rx, rights[api], m, ConcretePath(path))
    ensures Classify(rx, m, path, api, p) == R
  {
    hide StoredRow, AllowedUrlsFor, ConcretePath;
    var rights := StoredAccessRights(RoleBody(ReadOnly(ticks)), p);
    if api in BASELINE_APIS {
      assert api !in RoleBody(ReadOnly(ticks)) && rights[api] == p.baseline[api];
    } else {
      ReadRowEntries(api, p);
      assert rights[api] == RowFor(api, {R}, p);
      var e: Entry :| e in rights[api] && m in e.methods && rx.search(e.url, ConcretePath(path));
      if e in TemplatesOf(p, api) {
        assert e.methods == [POST] && EntriesPermit(rx, TemplatesOf(p, api), POST, ConcretePath(path));
      } else {
        assert e == Entry(ANY_PATH, [GET]);
      }
    }
  }

  // -- the repair report ---------------------------------------------------------------------------

  /** One `/.*` entry with the listed methods added for every row of the report. */
  function Repaired(rights: Rights, grants: map<string, set<Method>>): Rights {
    map api | api in rights.Keys + grants.Keys ::
      (if api in rights then rights[api] else [])
      + if api in grants then [Entry(ANY_PATH, InOrder(ALL_METHODS, grants[api]))] else []
  }

  /** Every listed method is there for some tool; rows that restrict no path are never listed. */
  lemma ListedRowsRestrict(rx: Regexes, names: seq<string>, tools: map<string, Tool>, rights: Rights,
                           grants: map<string, set<Method>>, api: string)
    requires IsReport(rx, names, tools, rights, grants) && api in grants
    ensures api in rights ==> rights[api] != []
  {
    var m :| m in grants[api];
    assert Lacks(rx, names, tools, rights, api, m);
    var name, row :| name in names && LacksFor(rx, name, tools, rights, api, m, row);
    RowMissing(rx, tools[name], rights, row);
  }

  /** A listed method is permitted on every path once its entry is added. */
  lemma RepairLetsMethod(rx: Regexes, rights: Rights, grants: map<string, set<Method>>, r: Requirement, m: Method)
    requires AnyPathMatches(rx) && '/' in r.path && r.api in grants && m in grants[r.api]
    ensures MethodLet(rx, Repaired(rights, grants)[r.api], r.path, m)
  {
    ReplacingKeepsSlash(r.path);
    AllMethodsHas(m);
    var grant := Repaired(rights, grants)[r.api];
    var e := grant[|grant| - 1];
    assert e in grant && Matches(rx, e, Sampled(r.path)) && m in e.methods;
  }

  /** A repair that leaves unrestricted rows alone takes nothing away. */
  ghost predicate LeavesUnrestricted(rights: Rights, grants: map<string, set<Method>>) {
    forall api | api in grants && api in rights :: rights[api] != []
  }

  lemma RepairKeeps(rx: Regexes, rights: Rights, grants: map<string, set<Method>>, r: Requirement)
    requires LeavesUnrestricted(rights, grants) && Lets(rx, rights, r)
    ensures Lets(rx, Repaired(rights, grants), r)
  {
    var repaired := Repaired(rights, grants);
    if rights[r.api] == [] {
      assert repaired[r.api] == [];
    } else {
      forall m | m in Needed(r) ensures MethodLet(rx, repaired[r.api], r.path, m) {
        var e :| e in rights[r.api] && Matches(rx, e, Sampled(r.path)) && m in e.methods;
        assert e in repaired[r.api];
      }
    }
  }

  /** Adding what one row lists makes its requirement pass. */
  lemma RepairLets(rx: Regexes, rights: Rights, grants: map<string, set<Method>>, row: Row)
    requires AnyPathMatches(rx) && '/' in row.req.path && LeavesUnrestricted(rights, grants)
    requires row.missing != [] && row.missing == Missing(rx, row.req, GrantOf(rights, row.req.api))
    requires row.req.api in grants && forall m | m in row.missing :: m in grants[row.req.api]
    ensures Lets(rx, Repaired(rights, grants), row.req)
  {
    var r := row.req;
    var repaired := Repaired(rights, grants);
    forall m | m in Needed(r) ensures MethodLet(rx, repaired[r.api], r.path, m) {
      if m in row.missing {
        RepairLetsMethod(rx, rights, grants, r, m);
      } else {
        assert r.api in rights && m in AllowedMethods(rx, rights[r.api], Sampled(r.path));
        var e :| e in rights[r.api] && Matches(rx, e, Sampled(r.path)) && m in e.methods;
        assert e in repaired[r.api];
      }
    }
  }

  ghost predicate PathsHaveSlash(tool: Tool) {
    forall r | r in tool.requirements :: '/' in r.path
  }

  lemma ReportLeavesUnrestricted(rx: Regexes, names: seq<string>, tools: map<string, Tool>, rights: Rights,
                                 grants: map<string, set<Method>>)
    requires IsReport(rx, names, tools, rights, grants)
    ensures LeavesUnrestricted(rights, grants)
  {
    forall api | api in grants && api in rights ensures rights[api] != [] {
      ListedRowsRestrict(rx, names, tools, rights, grants, api);
    }
  }

  /** REPAIR SUFFICIENT.  With every listed grant added, re-evaluation refuses no named tool. */
  lemma RepairSuffices(rx: Regexes, names: seq<string>, tools: map<string, Tool>, rights: Rights,
                       grants: map<string, set<Method>>, name: string)
    requires AnyPathMatches(rx) && IsReport(rx, names, tools, rights, grants)
    requires name in names && name in tools && PathsHaveSlash(tools[name])
    ensures ToolRows(rx, tools[name], Repaired(rights, grants)) == []
  {
    hide Missing;
    var tool := tools[name];
    var repaired := Repaired(rights, grants);
    ReportLeavesUnrestricted(rx, names, tools, rights, grants);
    forall row | row in ToolRows(rx, tool, rights) ensures Lets(rx, repaired, row.req) {
      RowMissing(rx, tool, rights, row);
      forall m | m in row.missing ensures row.req.api in grants && m in grants[row.req.api] {
        assert LacksFor(rx, name, tools, rights, row.req.api, m, row);
        assert Lacks(rx, names, tools, rights, row.req.api, m);
      }
      assert row.missing[0] in row.missing;
      RepairLets(rx, rights, grants, row);
    }
    ListedRowsRun(rx, tool, rights, grants);
  }

  /** If the repair lets each row of the tool through, and keeps the rest, the tool runs. */
  lemma ListedRowsRun(rx: Regexes, tool: Tool, rights: Rights, listed: map<string, set<Method>>)
    requires LeavesUnrestricted(rights, listed)
    requires forall row | row in ToolRows(rx, tool, rights) :: Lets(rx, Repaired(rights, listed), row.req)
    ensures ToolRows(rx, tool, Repaired(rights, listed)) == []
  {
    var repaired, groups := Repaired(rights, listed), AnyOfGroups(tool.anyOf);
    var plain := OffApis(tool.requirements, Grouped(groups));
    var perGroup := PerGroup(rx, tool, groups, rights);
    hide Missing, MissingRows, Lets, Repaired;
    forall row | row in MissingRows(rx, plain, rights) ensures row in ToolRows(rx, tool, rights) {}
    RowsLet(rx, plain, rights, listed);
    if groups != [] {
      var i := if [] in perGroup then SomeEmpty(perGroup) else 0;
      assert perGroup[i] == MissingRows(rx, OnApis(tool.requirements, Members(groups[i])), rights);
      forall row | row in perGroup[i] ensures row in ToolRows(rx, tool, rights) {}
      RowsLet(rx, OnApis(tool.requirements, Members(groups[i])), rights, listed);
      assert groups[i] in groups && LetsGroup(rx, tool, groups[i], repaired);
    }
    assert Runs(rx, tool, repaired);
    ToolRowsIffRuns(rx, tool, repaired);
  }

  function SomeEmpty(perGroup: seq<seq<Row>>): (i: nat)
    requires [] in perGroup
    ensures i < |perGroup| && perGroup[i] == []
  {
    if perGroup[0] == [] then 0 else 1 + SomeEmpty(perGroup[1..])
  }

  lemma RowsLet(rx: Regexes, reqs: seq<Requirement>, rights: Rights, listed: map<string, set<Method>>)
    requires LeavesUnrestricted(rights, listed)
    requires forall row | row in MissingRows(rx, reqs, rights) :: Lets(rx, Repaired(rights, listed), row.req)
    ensures forall r | r in reqs :: Lets(rx, Repaired(rights, listed), r)
  {
    hide Missing, MissingRows, Lets, Repaired;
    forall r | r in reqs ensures Lets(rx, Repaired(rights, listed), r) {
      MissingIff(rx, rights, r);
      var row := Row(r, Missing(rx, r, GrantOf(rights, r.api)));
      RowsMissing(rx, reqs, rights, row);
      if row.missing == [] {
        RepairKeeps(rx, rights, listed, r);
      } else {
        assert row in MissingRows(rx, reqs, rights);
        assert Lets(rx, Repaired(rights, listed), row.req);
      }
    }
  }

  /** REPAIR HARMLESS.  A tool permitted before the repair, named or not, is permitted after it. */
  lemma RepairKeepsPermitted(rx: Regexes, names: seq<string>, tools: map<string, Tool>, rights: Rights,
                             grants: map<string, set<Method>>, tool: Tool)
    requires IsReport(rx, names, tools, rights, grants)
    requires ToolRows(rx, tool, rights) == []
    ensures ToolRows(rx, tool, Repaired(rights, grants)) == []
  {
    ReportLeavesUnrestricted(rx, names, tools, rights, grants);
    ListedRowsRun(rx, tool, rights, grants);
  }

  /** REPAIR MINIMAL.  Without alternatives, leaving out one listed method keeps some tool refused. */
  lemma RepairMinimal(rx: Regexes, names: seq<string>, tools: map<string, Tool>, rights: Rights,
                      grants: map<string, set<Method>>, api: string, m: Method)
    returns (name: string)
    requires IsReport(rx, names, tools, rights, grants)
    requires forall n | n in tools :: tools[n].anyOf == []
    requires api in grants && m in grants[api]
    ensures name in names && name in tools
    ensures ToolRows(rx, tools[name], Repaired(rights, grants[api := grants[api] - {m}])) != []
  {
    assert Lacks(rx, names, tools, rights, api, m);
    var row;
    name, row :| name in names && LacksFor(rx, name, tools, rights, api, m, row);
    RowMissing(rx, tools[name], rights, row);
    var less := Repaired(rights, grants[api := grants[api] - {m}]);
    StillMissing(rx, rights, grants[api := grants[api] - {m}], row.req, m);
    assert Grouped([]) == {};
    assert !Lets(rx, less, row.req);
    ToolRowsIffRuns(rx, tools[name], less);
  }

  /** A repaired grant permits what the grant did and what its new entry lists, nothing else. */
  lemma RepairAddsListed(rx: Regexes, rights: Rights, listed: map<string, set<Method>>, api: string, path: string,
                         m: Method)
    requires api in listed && MethodLet(rx, Repaired(rights, listed)[api], path, m)
    ensures m in listed[api] || (api in rights && MethodLet(rx, rights[api], path, m))
  {
    var grant := Repaired(rights, listed)[api];
    var e :| e in grant && Matches(rx, e, Sampled(path)) && m in e.methods;
    assert e == Entry(ANY_PATH, InOrder(ALL_METHODS, listed[api])) || (api in rights && e in rights[api]);
  }

  lemma StillMissing(rx: Regexes, rights: Rights, listed: map<string, set<Method>>, r: Requirement, m: Method)
    requires m in Missing(rx, r, GrantOf(rights, r.api)) && r.api in listed && m !in listed[r.api]
    ensures !Lets(rx, Repaired(rights, listed), r)
  {
    hide MethodLet, Sampled;
    var grant := Repaired(rights, listed)[r.api];
    assert grant != [];
    assert MethodLet(rx, grant, r.path, m) ==> r.api in rights && MethodLet(rx, rights[r.api], r.path, m) by {
      if MethodLet(rx, grant, r.path, m) { RepairAddsListed(rx, rights, listed, r.api, r.path, m); }
    }
    if r.api in rights { AllowedIff(rx, rights[r.api], r.path, m); }
  }

  lemma AllowedIff(rx: Regexes, grant: Grant, path: string, m: Method)
    ensures m in AllowedMethods(rx, grant, Sampled(path)) <==> MethodLet(rx, grant, path, m)
  {}
}
