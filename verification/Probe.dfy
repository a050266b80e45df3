/** The cache of routing probes: concurrent callers of one key share one probe, and only a verdict
    worth remembering is stored. */
module Probe {
  import opened Options

  datatype Routing = Unrouted | RoutedNoPath | RoutedNoRbac | RoutedBadBody | Inconclusive | Available

  predicate Conclusive(r: Routing) {
    !r.Inconclusive?
  }

  const CROSSWORK := "/crosswork/"
  const PER_PATH: set<string> := {"alarms", "sso", "notification"}

  // -- keys ------------------------------------------------------------------------------------------

  /** Length of the run of characters that end neither a segment nor the path. */
  function ServiceLength(s: string): (n: nat)
    ensures n <= |s|
  {
    if s == "" || s[0] == '/' || s[0] == '?' || s[0] == '#' then 0 else 1 + ServiceLength(s[1..])
  }

  function WithoutQuery(s: string): string {
    if s == "" || s[0] == '?' || s[0] == '#' then "" else [s[0]] + WithoutQuery(s[1..])
  }

  /** The cache key of a path: its service prefix, or the path itself where routing is per path. */
  function PrefixOf(path: string): string {
    if !(CROSSWORK <= path) then path
    else
      var n := ServiceLength(path[11..]);
      if n == 0 then path
      else if path[11..11 + n] in PER_PATH then WithoutQuery(path)
      else path[..11 + n]
  }

  lemma {:induction false} ServiceOfPrefix(s: string)
    ensures ServiceLength(s[..ServiceLength(s)]) == ServiceLength(s)
    ensures ServiceLength(WithoutQuery(s)) == ServiceLength(s)
    ensures ServiceLength(s) <= |WithoutQuery(s)| && s[..ServiceLength(s)] == WithoutQuery(s)[..ServiceLength(s)]
  {
    var n := ServiceLength(s);
    if n == 0 {
    } else {
      ServiceOfPrefix(s[1..]);
      assert s[..n][1..] == s[1..][..n - 1];
      assert WithoutQuery(s)[1..] == WithoutQuery(s[1..]);
      assert s[..n] == [s[0]] + s[1..][..n - 1];
      assert WithoutQuery(s)[..n] == [s[0]] + WithoutQuery(s[1..])[..n - 1];
    }
  }

  lemma {:induction false} QueryFree(s: string, k: nat)
    requires k <= |s| && forall i | 0 <= i < k :: s[i] != '?' && s[i] != '#'
    ensures WithoutQuery(s) == s[..k] + WithoutQuery(s[k..])
    decreases k
  {
    if k > 0 {
      QueryFree(s[1..], k - 1);
      assert s[1..][k - 1..] == s[k..];
      assert [s[0]] + s[1..][..k - 1] == s[..k];
    } else {
      assert s[0..] == s;
    }
  }

  lemma {:induction false} QueryOnce(s: string)
    ensures WithoutQuery(WithoutQuery(s)) == WithoutQuery(s)
  {
    if s != "" && s[0] != '?' && s[0] != '#' {
      QueryOnce(s[1..]);
      assert WithoutQuery(s)[1..] == WithoutQuery(s[1..]);
    }
  }

  /** A key is its own key: what `ensure` stores under a path's key, `get` finds by the path and by the
      key alike. */
  lemma KeysAreStable(path: string)
    ensures PrefixOf(PrefixOf(path)) == PrefixOf(path)
  {
    if CROSSWORK <= path && ServiceLength(path[11..]) > 0 {
      if path[11..11 + ServiceLength(path[11..])] in PER_PATH { QueryStable(path); } else { ServiceStable(path); }
    }
  }

  /** A service prefix is the key of itself. */
  lemma ServiceStable(path: string)
    requires CROSSWORK <= path && ServiceLength(path[11..]) > 0
    ensures var n := ServiceLength(path[11..]);
      var short := path[..11 + n];
      CROSSWORK <= short && ServiceLength(short[11..]) == n && short[11..11 + n] == path[11..11 + n]
  {
    ServiceOfPrefix(path[11..]);
    hide ServiceLength, WithoutQuery;
    var n := ServiceLength(path[11..]);
    assert path[..11 + n][11..] == path[11..][..n];
    assert path[..11 + n][..11] == path[..11] == CROSSWORK;
  }

  /** Dropping the query drops nothing of the service name, and nothing more the second time. */
  lemma QueryStable(path: string)
    requires CROSSWORK <= path && ServiceLength(path[11..]) > 0
    ensures var n, bare := ServiceLength(path[11..]), WithoutQuery(path);
      && CROSSWORK <= bare && ServiceLength(bare[11..]) == n && bare[11..11 + n] == path[11..11 + n]
      && WithoutQuery(bare) == bare
  {
    var rest := path[11..];
    ServiceOfPrefix(rest);
    QueryOnce(path);
    assert path[..11] == CROSSWORK;
    QueryFree(path, 11);
    hide ServiceLength, WithoutQuery;
    var n, bare := ServiceLength(rest), WithoutQuery(path);
    assert bare == CROSSWORK + WithoutQuery(rest);
    assert bare[11..] == WithoutQuery(rest);
    assert bare[11..11 + n] == bare[11..][..n] && path[11..11 + n] == rest[..n];
  }

  /** The path continues after its service name, if at all, with a segment, a query or a fragment. */
  predicate Continues(rest: string) {
    rest == "" || rest[0] == '/' || rest[0] == '?' || rest[0] == '#'
  }

  predicate ServiceName(s: string) {
    s != "" && forall i :: 0 <= i < |s| ==> s[i] != '/' && s[i] != '?' && s[i] != '#'
  }

  lemma {:induction false} ServiceRun(s: string, rest: string)
    requires (forall i :: 0 <= i < |s| ==> s[i] != '/' && s[i] != '?' && s[i] != '#') && Continues(rest)
    ensures ServiceLength(s + rest) == |s|
    decreases |s|
  {
    if s == "" {
      assert s + rest == rest;
    } else {
      ServiceRun(s[1..], rest);
      assert (s + rest)[1..] == s[1..] + rest;
    }
  }

  predicate NoQuery(s: string) {
    forall i :: 0 <= i < |s| ==> s[i] != '?' && s[i] != '#'
  }

  /** A query or a fragment, or nothing. */
  predicate IsQuery(s: string) {
    s == "" || s[0] == '?' || s[0] == '#'
  }

  /** What a path is keyed by: its service, except that a path of a per-path service is keyed by itself
      up to the query or fragment. */
  lemma PrefixOfMeans(service: string, bare: string, query: string)
    requires ServiceName(service) && Continues(bare + query) && NoQuery(bare) && IsQuery(query)
    ensures PrefixOf(CROSSWORK + service + bare + query)
      == CROSSWORK + service + if service in {"alarms", "sso", "notification"} then bare else ""
  {
    var front, rest := CROSSWORK + service, bare + query;
    var path := front + bare + query;
    assert path == CROSSWORK + (service + rest) && |front| == 11 + |service|;
    assert path[..11] == CROSSWORK && path[11..] == service + rest;
    assert path[11..|front|] == service && path[..|front|] == front;
    ServiceRun(service, rest);
    hide ServiceLength, WithoutQuery;
    FrontHasNoQuery(service, bare);
    WithoutQueryMeans(front + bare, query);
  }

  lemma FrontHasNoQuery(service: string, bare: string)
    requires ServiceName(service) && NoQuery(bare)
    ensures NoQuery(CROSSWORK + service + bare)
  {}

  lemma WithoutQueryMeans(bare: string, query: string)
    requires NoQuery(bare) && IsQuery(query)
    ensures WithoutQuery(bare + query) == bare
  {
    var s := bare + query;
    assert s[..|bare|] == bare && s[|bare|..] == query;
    QueryFree(s, |bare|);
    NothingBeforeQuery(query);
  }

  lemma NothingBeforeQuery(s: string)
    requires s == "" || s[0] == '?' || s[0] == '#'
    ensures WithoutQuery(s) == ""
  {}

  lemma OtherPathsAreKeys(path: string)
    requires !(CROSSWORK <= path) || path == CROSSWORK || path[11] == '/' || path[11] == '?' || path[11] == '#'
    ensures PrefixOf(path) == path
  {
    if CROSSWORK <= path && |path| > 11 { assert path[11..][0] == path[11]; }
  }

  // -- the cache -------------------------------------------------------------------------------------

  /** results and probed, the two dictionaries. */
  datatype Cache = Cache(results: map<string, Routing>, probed: map<string, string>)

  function KeyOf(c: Cache, prefixOrPath: string): string {
    if prefixOrPath in c.results then prefixOrPath else PrefixOf(prefixOrPath)
  }

  function Lookup(c: Cache, prefixOrPath: string): Option<Routing> {
    var key := KeyOf(c, prefixOrPath);
    if key in c.results then Some(c.results[key]) else None
  }

  function Forgotten(c: Cache, key: string): Cache {
    Cache(c.results - {key}, c.probed - {key})
  }

  function Stored(c: Cache, key: string, path: string, verdict: Routing): Cache {
    if Conclusive(verdict) then Cache(c.results[key := verdict], c.probed[key := path]) else c
  }

  /** ensure under a key: the verdict returned, and the cache afterwards. */
  function Ensured(c: Cache, key: string, path: string, verdict: Routing): (Routing, Cache) {
    if key in c.results then (c.results[key], c) else (verdict, Stored(c, key, path, verdict))
  }

  class Availability {
    var results: map<string, Routing>
    var probed: map<string, string>

    ghost function Contents(): Cache
      reads this
    {
      Cache(results, probed)
    }

    constructor ()
      ensures Contents() == Cache(map[], map[])
    {
      results, probed := map[], map[];
    }

    method Get(prefix: string) returns (r: Option<Routing>)
      ensures r == Lookup(Contents(), prefix)
    {
      var key := if prefix in results then prefix else PrefixOf(prefix);
      r := if key in results then Some(results[key]) else None;
    }

    method Forget(prefix: Option<string>)
      modifies this
      ensures Contents() == if prefix.None? then Cache(map[], map[])
        else Forgotten(old(Contents()), KeyOf(old(Contents()), prefix.value))
    {
      if prefix.None? {
        results, probed := map[], map[];
        return;
      }
      var key := if prefix.value in results then prefix.value else PrefixOf(prefix.value);
      results := results - {key};
      probed := probed - {key};
    }

    /** ensure, undisturbed: verdict is what the probe answers, should one be sent. */
    method Ensure(path: string, prefix: Option<string>, verdict: Routing) returns (r: Routing, sent: bool)
      modifies this
      ensures var key := if prefix.Some? then prefix.value else PrefixOf(path);
        && sent == (key !in old(results))
        && (r, Contents()) == Ensured(old(Contents()), key, path, verdict)
    {
      var key := if prefix.Some? then prefix.value else PrefixOf(path);
      if key in results { return results[key], false; }
      r, sent := verdict, true;
      if Conclusive(r) {
        results := results[key := r];
        probed := probed[key := path];
      }
    }
  }

  // -- what was ensured is found ---------------------------------------------------------------------

  /** What ensure returned is found under its key exactly when it is conclusive; then also by every path
      of that key, unless the path is itself an explicit key with another verdict; and other keys and
      paths find what they found before. */
  lemma EnsuredIsFound(c: Cache, prefix: Option<string>, path: string, verdict: Routing, q: string)
    requires forall key | key in c.results :: Conclusive(c.results[key])
    ensures var key := if prefix.Some? then prefix.value else PrefixOf(path);
      var (answer, after) := Ensured(c, key, path, verdict);
      && (Lookup(after, key) == Some(answer) <==> !answer.Inconclusive?)
      && (!answer.Inconclusive? && PrefixOf(q) == key ==>
            (Lookup(after, q) == Some(answer) <==> q in c.results ==> c.results[q] == answer))
      && (PrefixOf(q) != key && q != key ==> Lookup(after, q) == Lookup(c, q))
  {
    hide PrefixOf;
  }

  /** Forgetting by a path or key leaves nothing to find by it, unless a verdict of its own hid that of
      its service. */
  lemma ForgottenIsGone(c: Cache, q: string)
    ensures Lookup(Forgotten(c, KeyOf(c, q)), q).None?
      <==> !(q in c.results && PrefixOf(q) != q && PrefixOf(q) in c.results)
  {
    hide PrefixOf;
  }

  // -- interleavings ---------------------------------------------------------------------------------

  /** Where a caller of ensure is suspended: at the key's lock, or at its probe. */
  datatype Caller = Idle | AtLock(key: string, path: string) | Probing(key: string, path: string)
                  | Done(key: string, verdict: Routing)

  /** locks: who holds each key's lock.  History: the probes answered, and how often each key was
      stored and forgotten. */
  datatype World = World(callers: seq<Caller>, cache: Cache, locks: map<string, nat>,
                         answers: set<(string, string, Routing)>, stores: multiset<string>,
                         forgets: multiset<string>, clears: nat)

  /** answer: what a probe answers, or None when the transport fails or the caller is cancelled. */
  datatype Event =
    | Call(i: nat, path: string, prefix: Option<string>)
    | Acquire(i: nat)
    | Answer(i: nat, answer: Option<Routing>)
    | Withdraw(i: nat)
    | Forget(prefix: Option<string>)

  function Initial(callers: nat): World {
    World(seq(callers, i => Idle), Cache(map[], map[]), map[], {}, multiset{}, multiset{}, 0)
  }

  function Step(w: World, e: Event): Option<World> {
    match e
    case Forget(prefix) =>
      if prefix.None? then Some(w.(cache := Cache(map[], map[]), clears := w.clears + 1))
      else
        var key := KeyOf(w.cache, prefix.value);
        Some(w.(cache := Forgotten(w.cache, key), forgets := w.forgets[key := w.forgets[key] + 1]))
    case Call(i, path, prefix) =>
      if i >= |w.callers| || !(w.callers[i].Idle? || w.callers[i].Done?) then None
      else
        var key := if prefix.Some? then prefix.value else PrefixOf(path);
        Some(w.(callers := w.callers[i := if key in w.cache.results then Done(key, w.cache.results[key]) else AtLock(key, path)]))
    case Acquire(i) =>
      if i >= |w.callers| || !w.callers[i].AtLock? || w.callers[i].key in w.locks then None
      else
        var key := w.callers[i].key;
        if key in w.cache.results then Some(w.(callers := w.callers[i := Done(key, w.cache.results[key])]))
        else Some(w.(callers := w.callers[i := Probing(key, w.callers[i].path)], locks := w.locks[key := i]))
    case Answer(i, answer) =>
      if i >= |w.callers| || !w.callers[i].Probing? then None
      else
        var key, path := w.callers[i].key, w.callers[i].path;
        var freed := w.(locks := w.locks - {key});
        if answer.None? then Some(freed.(callers := w.callers[i := Idle]))
        else
          Some(freed.(callers := w.callers[i := Done(key, answer.value)],
                      answers := w.answers + {(key, path, answer.value)},
                      cache := Stored(w.cache, key, path, answer.value),
                      stores := if Conclusive(answer.value) then w.stores[key := w.stores[key] + 1] else w.stores))
    case Withdraw(i) =>
      if i >= |w.callers| || !w.callers[i].AtLock? then None else Some(w.(callers := w.callers[i := Idle]))
  }

  function Run(w: World, events: seq<Event>): Option<World>
    decreases |events|
  {
    if events == [] then Some(w)
    else
      var before := Run(w, events[..|events| - 1]);
      if before.None? then None else Step(before.value, events[|events| - 1])
  }

  /** ENSURE, REFINED.  The steps of one call that nothing comes between amount to the method: it returns what
      is cached, or waits for the key's lock, probes, and stores what is conclusive. */
  lemma EnsureRefines(w: World, i: nat, path: string, prefix: Option<string>, verdict: Routing)
    requires i < |w.callers| && w.callers[i].Idle?
    ensures var key := if prefix.Some? then prefix.value else PrefixOf(path);
      var (answer, after) := Ensured(w.cache, key, path, verdict);
      var called := Step(w, Call(i, path, prefix));
      && called.Some?
      && if key in w.cache.results then called.value == w.(callers := w.callers[i := Done(key, answer)])
         else key !in w.locks ==>
           var acquired := Step(called.value, Acquire(i));
           acquired.Some? && acquired.value.locks == w.locks[key := i] && acquired.value.callers[i] == Probing(key, path)
           && var answered := Step(acquired.value, Answer(i, Some(verdict)));
              answered.Some? && answered.value.callers[i] == Done(key, answer) && answered.value.cache == after
              && answered.value.locks == w.locks
  {
    hide PrefixOf;
  }

  /** The history records what happened: each conclusive answer of a probe is stored, each forget that names a
      key counts for it, each that names none for all. */
  lemma HistoryRecords(w: World, e: Event, key: string)
    requires Step(w, e).Some?
    ensures var after := Step(w, e).value;
      && after.stores[key] == w.stores[key]
           + (if e.Answer? && e.answer.Some? && w.callers[e.i].key == key && Conclusive(e.answer.value) then 1 else 0)
      && after.forgets[key] == w.forgets[key]
           + (if e.Forget? && e.prefix.Some? && KeyOf(w.cache, e.prefix.value) == key then 1 else 0)
      && after.clears == w.clears + (if e.Forget? && e.prefix.None? then 1 else 0)
      && after.answers == w.answers + if e.Answer? && e.answer.Some?
           then {(w.callers[e.i].key, w.callers[e.i].path, e.answer.value)} else {}
  {
    hide PrefixOf;
  }

  /** A key's lock is held by the caller probing it, who found nothing cached for it. */
  ghost predicate LockInv(w: World) {
    && (forall key | key in w.locks :: w.locks[key] < |w.callers| && w.callers[w.locks[key]].Probing?
          && w.callers[w.locks[key]].key == key && key !in w.cache.results)
    && (forall i | 0 <= i < |w.callers| && w.callers[i].Probing? ::
          w.callers[i].key in w.locks && w.locks[w.callers[i].key] == i)
  }

  /** The dictionaries agree, and hold conclusive answers of probes. */
  ghost predicate CacheInv(w: World) {
    && w.cache.results.Keys == w.cache.probed.Keys
    && forall key | key in w.cache.results ::
         !w.cache.results[key].Inconclusive? && (key, w.cache.probed[key], w.cache.results[key]) in w.answers
  }

  ghost predicate CountInv(w: World) {
    forall key :: w.stores[key] <= w.forgets[key] + w.clears + if key in w.cache.results then 1 else 0
  }

  ghost predicate Inv(w: World) {
    LockInv(w) && CacheInv(w) && CountInv(w) && ReturnInv(w)
  }

  lemma StepKeepsLocks(w: World, e: Event)
    requires LockInv(w) && Step(w, e).Some?
    ensures LockInv(Step(w, e).value)
  {
    match e
    case Forget(_) =>
    case Call(_, _, _) => hide PrefixOf;
    case Acquire(_) =>
    case Answer(i, answer) => AnswerKeepsLocks(w, i, answer);
    case Withdraw(_) =>
  }

  lemma AnswerKeepsLocks(w: World, i: nat, answer: Option<Routing>)
    requires LockInv(w) && Step(w, Answer(i, answer)).Some?
    ensures LockInv(Step(w, Answer(i, answer)).value)
  {}

  /** A verdict handed to a caller was answered by some probe of its key. */
  ghost predicate ReturnInv(w: World) {
    forall i | 0 <= i < |w.callers| && w.callers[i].Done? :: Answered(w, w.callers[i].key, w.callers[i].verdict)
  }

  ghost predicate Answered(w: World, key: string, verdict: Routing) {
    exists path :: (key, path, verdict) in w.answers
  }

  lemma StepKeepsReturns(w: World, e: Event)
    requires CacheInv(w) && ReturnInv(w) && Step(w, e).Some?
    ensures ReturnInv(Step(w, e).value)
  {
    hide PrefixOf;
    var w' := Step(w, e).value;
    forall key, verdict | Answered(w, key, verdict) ensures Answered(w', key, verdict) {
      var path :| (key, path, verdict) in w.answers;
      assert (key, path, verdict) in w'.answers;
    }
    forall key | key in w.cache.results ensures Answered(w, key, w.cache.results[key]) {
      assert (key, w.cache.probed[key], w.cache.results[key]) in w.answers;
    }
    match e
    case Answer(i, answer) =>
      if answer.Some? { assert (w.callers[i].key, w.callers[i].path, answer.value) in w'.answers; }
    case _ =>
  }

  lemma StepKeepsCache(w: World, e: Event)
    requires CacheInv(w) && Step(w, e).Some?
    ensures CacheInv(Step(w, e).value)
  {}

  lemma StepKeepsCounts(w: World, e: Event)
    requires LockInv(w) && CountInv(w) && Step(w, e).Some?
    ensures CountInv(Step(w, e).value)
  {}

  lemma {:induction false} RunKeepsInv(w: World, events: seq<Event>)
    requires Inv(w) && Run(w, events).Some?
    ensures Inv(Run(w, events).value)
    decreases |events|
  {
    hide Step, LockInv, CacheInv, CountInv, ReturnInv;
    if events == [] {
    } else {
      var n := |events| - 1;
      RunKeepsInv(w, events[..n]);
      var before := Run(w, events[..n]).value;
      StepKeepsLocks(before, events[n]);
      StepKeepsCache(before, events[n]);
      StepKeepsCounts(before, events[n]);
      StepKeepsReturns(before, events[n]);
    }
  }

  ghost predicate Reachable(w: World, callers: nat) {
    exists events :: Run(Initial(callers), events) == Some(w)
  }

  lemma ReachableInv(w: World, callers: nat)
    requires Reachable(w, callers)
    ensures Inv(w)
  {
    var events :| Run(Initial(callers), events) == Some(w);
    RunKeepsInv(Initial(callers), events);
  }

  /** SINGLE FLIGHT.  At most one probe per key is in flight. */
  lemma OneProbePerKey(w: World, callers: nat, i: nat, j: nat)
    requires Reachable(w, callers) && i < |w.callers| && j < |w.callers|
    requires w.callers[i].Probing? && w.callers[j].Probing? && w.callers[i].key == w.callers[j].key
    ensures i == j
  {
    ReachableInv(w, callers);
  }

  /** What is cached is a conclusive answer to a probe of the path recorded beside it. */
  lemma OnlyConclusiveStored(w: World, callers: nat, key: string)
    requires Reachable(w, callers)
    ensures key in w.cache.results <==> key in w.cache.probed
    ensures key in w.cache.results ==>
      !w.cache.results[key].Inconclusive? && (key, w.cache.probed[key], w.cache.results[key]) in w.answers
  {
    ReachableInv(w, callers);
    assert key in w.cache.results <==> key in w.cache.results.Keys;
    assert key in w.cache.probed <==> key in w.cache.probed.Keys;
  }

  /** Whatever ensure returned, inconclusive or not, a probe of the key answered. */
  lemma VerdictsWereProbed(w: World, callers: nat, i: nat)
    requires Reachable(w, callers) && i < |w.callers| && w.callers[i].Done?
    ensures exists path :: (w.callers[i].key, path, w.callers[i].verdict) in w.answers
  {
    ReachableInv(w, callers);
    assert Answered(w, w.callers[i].key, w.callers[i].verdict);
  }

  /** A key is stored at most once more often than it was forgotten, alone or with all others. */
  lemma StoredOncePerForget(w: World, callers: nat, key: string)
    requires Reachable(w, callers)
    ensures w.stores[key] <= 1 + w.forgets[key] + w.clears
  {
    ReachableInv(w, callers);
  }

  // -- a verdict that hides another ------------------------------------------------------------------

  lemma Extend(w: World, events: seq<Event>, e: Event)
    requires Run(w, events).Some?
    ensures Run(w, events + [e]) == Step(Run(w, events).value, e)
  {
    assert (events + [e])[..|events|] == events;
  }

  /** A caller ensures a key that is not cached, and the probe answers. */
  lemma EnsureOnce(w0: World, events: seq<Event>, path: string, prefix: Option<string>, answer: Routing)
    returns (es: seq<Event>)
    requires Run(w0, events).Some? && Conclusive(answer)
    requires var w := Run(w0, events).value;
      var key := if prefix.Some? then prefix.value else PrefixOf(path);
      |w.callers| == 1 && (w.callers[0].Idle? || w.callers[0].Done?) && key !in w.cache.results && w.locks == map[]
    ensures var key := if prefix.Some? then prefix.value else PrefixOf(path);
      var before := Run(w0, events).value;
      && Run(w0, es).Some?
      && var after := Run(w0, es).value;
         && |after.callers| == 1 && after.callers[0].Done? && after.locks == map[]
         && after.cache == Stored(before.cache, key, path, answer)
  {
    hide PrefixOf, Run;
    es := events;
    Extend(w0, es, Call(0, path, prefix));
    es := es + [Call(0, path, prefix)];
    Extend(w0, es, Acquire(0));
    es := es + [Acquire(0)];
    Extend(w0, es, Answer(0, Some(answer)));
    es := es + [Answer(0, Some(answer))];
  }

  /** One caller ensures the path under itself as explicit key, then plainly: both verdicts are cached. */
  lemma BothCached(q: string)
    requires PrefixOf(q) != q
    ensures exists w :: Reachable(w, 1) && q in w.cache.results && PrefixOf(q) in w.cache.results
  {
    hide PrefixOf, Step;
    var es := EnsureOnce(Initial(1), [], q, Some(q), Available);
    es := EnsureOnce(Initial(1), es, q, None, Unrouted);
    assert Reachable(Run(Initial(1), es).value, 1);
  }

  lemma LongPath()
    ensures PrefixOf("/crosswork/x/y") == "/crosswork/x"
  {
    var path := "/crosswork/x/y";
    assert path[..11] == CROSSWORK && path[11..] == "x/y";
    assert "x/y"[1..] == "/y" && ServiceLength("/y") == 0 && ServiceLength("x/y") == 1;
    assert path[11..12] == "x" && |"x"| != |"sso"|;
    assert path[..12] == "/crosswork/x";
  }

  /** A reachable cache in which a path is still answered after it was forgotten: by its service. */
  lemma ForgottenStillAnswered()
    ensures exists w, q :: Reachable(w, 1) && q in w.cache.results && Lookup(Forgotten(w.cache, KeyOf(w.cache, q)), q).Some?
  {
    var q := "/crosswork/x/y";
    LongPath();
    assert |"/crosswork/x"| != |q|;
    hide PrefixOf, Reachable;
    BothCached(q);
    var w :| Reachable(w, 1) && q in w.cache.results && PrefixOf(q) in w.cache.results;
    ForgottenIsGone(w.cache, q);
  }
}
