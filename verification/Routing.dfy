/** Routing a request path to the secured API whose listen path claims it, and the static
    detection of templates whose runtime values could route elsewhere. */
module Routing {
  import opened Options
  import opened Templates

  // -- listen paths ----------------------------------------------------------------------------------

  function StripSlashes(s: string): (r: string)
    ensures r <= s && (r == "" || r[|r| - 1] != '/')
  {
    if s != "" && s[|s| - 1] == '/' then StripSlashes(s[..|s| - 1]) else s
  }

  /** The literal parts between the {...} variables. */
  function SplitVars(s: string): (parts: seq<string>)
    ensures parts != []
    decreases |s|
  {
    if s == "" then [""]
    else if FieldEnd(s) > 0 then [""] + SplitVars(s[FieldEnd(s)..])
    else
      var rest := SplitVars(s[1..]);
      [[s[0]] + rest[0]] + rest[1..]
  }

  /** Only trailing slashes go. */
  lemma {:induction false} SlashesStripped(s: string)
    ensures forall i :: |StripSlashes(s)| <= i < |s| ==> s[i] == '/'
  {
    if s != "" && s[|s| - 1] == '/' {
      SlashesStripped(s[..|s| - 1]);
    }
  }

  /** A brace-free text, a variable, and what follows it. */
  lemma {:induction false} VariableSplits(a: string, name: string, rest: string)
    requires BraceFree(a) && BraceFree(name)
    ensures SplitVars(a + ("{" + name + "}" + rest)) == [a] + SplitVars(rest)
    decreases |a|
  {
    var group := "{" + name + "}" + rest;
    var s := a + group;
    if a == "" {
      assert s == group;
      OneVariable(name, rest);
    } else {
      assert a[0] in a;
      forall c | c in a[1..] ensures c in a {}
      VariableSplits(a[1..], name, rest);
      LiteralFirst(s);
      assert s[1..] == a[1..] + group && [a[0]] + a[1..] == a;
    }
  }

  lemma OneVariable(name: string, rest: string)
    requires BraceFree(name)
    ensures SplitVars("{" + name + "}" + rest) == [""] + SplitVars(rest)
  {
    var group := "{" + name + "}" + rest;
    assert group[1..] == name + ("}" + rest);
    PlainRun(name, "}" + rest);
    assert FieldEnd(group) == |name| + 2 && group[|name| + 2..] == rest;
  }

  lemma LiteralFirst(s: string)
    requires s != "" && s[0] != '{'
    ensures var more := SplitVars(s[1..]); SplitVars(s) == [[s[0]] + more[0]] + more[1..]
  {}

  lemma {:induction false} PlainRun(a: string, rest: string)
    requires BraceFree(a) && rest != "" && (rest[0] == '{' || rest[0] == '}')
    ensures PlainLength(a + rest) == |a|
    decreases |a|
  {
    if a == "" {
      assert a + rest == rest;
    } else {
      assert a[0] in a;
      forall c | c in a[1..] ensures c in a {}
      PlainRun(a[1..], rest);
      assert (a + rest)[1..] == a[1..] + rest;
    }
  }

  /** (?=/|$): the path ends here, or a segment does; `$` also holds before a final newline. */
  predicate Boundary(rest: string) {
    rest == "" || rest[0] == '/' || rest == "\n"
  }

  function SegmentRun(s: string): (n: nat)
    ensures n <= |s|
  {
    if s == "" || s[0] == '/' then 0 else 1 + SegmentRun(s[1..])
  }

  /** Where the anchored match of the parts, one-segment variables between them, ends: a variable
      takes as much as it can, then gives back. */
  function MatchEnd(parts: seq<string>, s: string): Option<nat>
    requires parts != []
    decreases |parts|, 0
  {
    if !(parts[0] <= s) then None
    else
      var rest := s[|parts[0]|..];
      if |parts| == 1 then if Boundary(rest) then Some(|parts[0]|) else None
      else
        var tail := MatchVar(parts[1..], rest, SegmentRun(rest));
        if tail.None? then None else Some(|parts[0]| + tail.value)
  }

  function MatchVar(parts: seq<string>, s: string, n: nat): Option<nat>
    requires parts != [] && n <= |s|
    decreases |parts|, n + 1
  {
    if n == 0 then None
    else
      var tail := MatchEnd(parts, s[n..]);
      if tail.Some? then Some(n + tail.value) else MatchVar(parts, s, n - 1)
  }

  /** listen_path_pattern(listen).match(path).end(). */
  function Claim(listen: string, path: string): Option<nat> {
    MatchEnd(SplitVars(StripSlashes(listen)), path)
  }

  // -- the route -------------------------------------------------------------------------------------

  /** Python's order on strings. */
  predicate Less(a: string, b: string) {
    b != "" && (a == "" || a[0] < b[0] || (a[0] == b[0] && Less(a[1..], b[1..])))
  }

  lemma {:induction false} LessTotal(a: string, b: string)
    ensures a == b || Less(a, b) || Less(b, a)
    ensures !(Less(a, b) && Less(b, a)) && !Less(a, a)
    decreases |a|
  {
    if a == "" {
    } else {
      LessTotal(a[1..], a[1..]);
      if b != "" {
        LessTotal(a[1..], b[1..]);
        if a[0] == b[0] && a[1..] == b[1..] { assert a == [a[0]] + a[1..] && b == [b[0]] + b[1..]; }
      }
    }
  }

  lemma {:induction false} LessTransitive(a: string, b: string, c: string)
    requires Less(a, b) && Less(b, c)
    ensures Less(a, c)
    decreases |a|
  {
    if a != "" && a[0] == b[0] && b[0] == c[0] {
      LessTransitive(a[1..], b[1..], c[1..]);
    }
  }

  /** An API with a claim of its own beats another: a longer claim, or the smaller id. */
  predicate Beats(apis: map<string, string>, path: string, id: string, other: string)
    requires id in apis && other in apis && Claim(apis[id], path).Some?
  {
    var there := Claim(apis[other], path);
    var here := Claim(apis[id], path).value;
    there.None? || there.value < here || (there.value == here && Less(id, other))
  }

  /** The API a path routes to, if any claims it. */
  ghost predicate RoutesTo(apis: map<string, string>, path: string, id: string) {
    && id in apis && Claim(apis[id], path).Some?
    && forall other | other in apis && other != id :: Beats(apis, path, id, other)
  }

  ghost predicate Claimed(apis: map<string, string>, path: string) {
    exists id :: id in apis && Claim(apis[id], path).Some?
  }

  /** The loop over the catalogue, in whatever order it lists its APIs. */
  method Route(apis: map<string, string>, order: seq<string>, path: string) returns (best: Option<string>)
    requires forall id :: id in order <==> id in apis
    ensures best.Some? <==> Claimed(apis, path)
    ensures best.Some? ==> RoutesTo(apis, path, best.value)
    ensures best.Some? ==> LongestClaim(apis, path, best.value)
  {
    hide Claim, Less;
    best := None;
    var end: nat := 0;
    for i := 0 to |order|
      invariant best.None? ==> forall id | id in order[..i] :: Claim(apis[id], path).None?
      invariant best.Some? ==> best.value in order[..i] && Claim(apis[best.value], path) == Some(end)
      invariant best.Some? ==> forall id | id in order[..i] && id != best.value :: Beats(apis, path, best.value, id)
    {
      var id := order[i];
      assert order[..i + 1] == order[..i] + [id];
      var claim := Claim(apis[id], path);
      if claim.Some? {
        if best.None? || claim.value > end || (claim.value == end && Less(id, best.value)) {
          forall other | other in order[..i] && other != id ensures Beats(apis, path, id, other) {
            if best.Some? && other != best.value && claim.value == end { LessTransitiveIf(id, best.value, other); }
          }
          best, end := Some(id), claim.value;
        } else {
          LessTotal(id, best.value);
        }
      }
    }
    assert order[..|order|] == order;
    if best.Some? { RoutesMeans(apis, path, best.value); }
  }

  /** No API claims more of the path, and of those that claim as much none has an id that comes before, at the
      first character in which they differ. */
  ghost predicate LongestClaim(apis: map<string, string>, path: string, id: string) {
    && id in apis && Claim(apis[id], path).Some?
    && forall other | other in apis && Claim(apis[other], path).Some? ::
         && Claim(apis[other], path).value <= Claim(apis[id], path).value
         && (Claim(apis[other], path).value == Claim(apis[id], path).value && other != id ==>
               exists k: nat :: ComesBefore(id, other, k))
  }

  /** a and b agree on k characters; then a ends or has the smaller one. */
  predicate ComesBefore(a: string, b: string, k: nat) {
    k <= |a| && k < |b| && a[..k] == b[..k] && (k == |a| || a[k] < b[k])
  }

  lemma {:induction false} LessMeans(a: string, b: string)
    ensures Less(a, b) <==> exists k: nat :: ComesBefore(a, b, k)
    decreases |a|
  {
    if b == "" {
    } else if a == "" || a[0] < b[0] {
      assert ComesBefore(a, b, 0);
    } else {
      LessMeans(a[1..], b[1..]);
      if a[0] == b[0] {
        if k: nat :| ComesBefore(a[1..], b[1..], k) {
          assert a[..k + 1] == [a[0]] + a[1..][..k] && b[..k + 1] == [b[0]] + b[1..][..k];
          assert ComesBefore(a, b, k + 1);
        }
        if k: nat :| ComesBefore(a, b, k) {
          assert k > 0;
          assert a[1..][..k - 1] == a[..k][1..] && b[1..][..k - 1] == b[..k][1..];
          assert ComesBefore(a[1..], b[1..], k - 1);
        }
      } else {
        forall k: nat ensures !ComesBefore(a, b, k) {
          assert 0 < k <= |a| && k < |b| ==> a[..k][0] == a[0] && b[..k][0] == b[0];
        }
      }
    }
  }

  lemma RoutesMeans(apis: map<string, string>, path: string, id: string)
    requires RoutesTo(apis, path, id)
    ensures LongestClaim(apis, path, id)
  {
    hide Claim, Less, ComesBefore;
    forall other | other in apis && Claim(apis[other], path).Some? && other != id
      ensures Claim(apis[other], path).value <= Claim(apis[id], path).value
      ensures Claim(apis[other], path).value == Claim(apis[id], path).value ==> exists k: nat :: ComesBefore(id, other, k)
    {
      assert Beats(apis, path, id, other);
      LessMeans(id, other);
    }
  }

  lemma LessTransitiveIf(a: string, b: string, c: string)
    ensures Less(a, b) && Less(b, c) ==> Less(a, c)
  {
    if Less(a, b) && Less(b, c) { LessTransitive(a, b, c); }
  }

  /** The route does not depend on the order of the catalogue. */
  lemma RouteUnique(apis: map<string, string>, path: string, a: string, b: string)
    requires RoutesTo(apis, path, a) && RoutesTo(apis, path, b)
    ensures a == b
  {
    hide Claim;
    if a != b { LessTotal(a, b); }
  }

  // -- runtime values --------------------------------------------------------------------------------

  /** The literal text before the first placeholder, and what follows it. */
  function FirstHole(t: string): (k: nat)
    ensures k <= |t| && (k < |t| ==> HOLE <= t[k..])
  {
    if t == "" then 0 else if HOLE <= t then 0 else 1 + FirstHole(t[1..])
  }

  predicate CouldExtendInto(t: string, listen: string) {
    var k := FirstHole(t);
    k < |t| && |StripSlashes(listen)| > k && t[..k] <= StripSlashes(listen)
  }

  /** The APIs build_map records for a template that routes to chosen. */
  function Recorded(apis: map<string, string>, t: string, chosen: string): set<string> {
    {chosen} + set id | id in apis && id != chosen && CouldExtendInto(t, apis[id])
  }

  predicate BraceFree(s: string) {
    '{' !in s && '}' !in s
  }

  ghost predicate LiteralPaths(apis: map<string, string>) {
    forall id | id in apis :: BraceFree(apis[id])
  }

  lemma {:induction false} NoVariables(s: string)
    requires BraceFree(s)
    ensures SplitVars(s) == [s]
    decreases |s|
  {
    if s == "" {
    } else {
      assert s[0] in s;
      forall c | c in s[1..] ensures c in s {}
      NoVariables(s[1..]);
      assert [s[0]] + s[1..] == s;
    }
  }

  lemma StripBraceFree(s: string)
    requires BraceFree(s)
    ensures BraceFree(StripSlashes(s))
  {
    forall c | c in StripSlashes(s) ensures c in s {}
  }

  /** A literal listen path claims the paths that continue it at a segment boundary. */
  lemma LiteralClaim(listen: string, path: string)
    requires BraceFree(listen)
    ensures var stripped := StripSlashes(listen);
      Claim(listen, path)
        == if stripped <= path && Boundary(path[|stripped|..]) then Some(|stripped|) else None
  {
    StripBraceFree(listen);
    NoVariables(StripSlashes(listen));
  }
}
