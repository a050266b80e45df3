/** The static detection of templates whose runtime values could route elsewhere: when it misses no API,
    and what escapes it. */
module RoutingTheorems {
  import opened Options
  import opened Templates
  import opened Routing
  import opened RoutingReach

  // -- the theorem -----------------------------------------------------------------------------------

  function Prefix(t: string): string {
    t[..FirstHole(t)]
  }

  /** No value takes the listen path's claim past the template's literal prefix; or one does, and the API
      is recorded and does not claim the template itself. */
  predicate Settled(t: string, listen: string) {
    || !Reaches(SplitVars(StripSlashes(listen)), Prefix(t))
    || (CouldExtendInto(t, listen) && Claim(listen, t).None?)
  }

  /** The listen path matches up to a variable, with nothing after it, that the first value is part of. */
  predicate Open(t: string, listen: string) {
    OpenEnd(SplitVars(StripSlashes(listen)), Prefix(t))
  }

  lemma TemplateSplits(t: string)
    requires FirstHole(t) < |t|
    ensures t == Prefix(t) + t[FirstHole(t)..] && PlainRest(t[FirstHole(t)..])
  {
    assert t[FirstHole(t)..][0] == '{';
  }

  /** Two requests that go on differently route alike if both routes claim no more than the common start. */
  lemma EarlyRoutesAgree(apis: map<string, string>, s: string, x: string, y: string, a: string, b: string)
    requires PlainRest(x) && PlainRest(y) && RoutesTo(apis, s + x, a) && RoutesTo(apis, s + y, b)
    requires Claim(apis[a], s + x).value <= |s| && Claim(apis[b], s + y).value <= |s|
    ensures a == b
  {
    hide Claim, Less, PlainRest;
    EarlyClaim(apis[a], s, x, y);
    EarlyClaim(apis[b], s, y, x);
    if a != b {
      assert Beats(apis, s + x, a, b) && Beats(apis, s + y, b, a);
      LessTotal(a, b);
    }
  }

  /** A settled listen path that claims the template claims no more than its literal prefix. */
  lemma SettledEarly(t: string, listen: string)
    requires FirstHole(t) < |t| && Settled(t, listen) && Claim(listen, t).Some?
    ensures Claim(listen, t).value <= |Prefix(t)|
  {
    TemplateSplits(t);
    hide Claim, PlainRest, Reaches, SplitVars, StripSlashes, CouldExtendInto, Prefix, FirstHole;
    var s, rest := Prefix(t), t[FirstHole(t)..];
    if Claim(listen, s + rest).value > |s| { LateClaim(listen, s, rest); }
  }

  /** Where a request routes to an API that claims no more than the common start, so does the template,
      and to the same one. */
  lemma EarlyRoute(apis: map<string, string>, t: string, chosen: string, text: string, actual: string)
    requires forall id | id in apis :: Settled(t, apis[id]) || Open(t, apis[id])
    requires FirstHole(t) < |t| && PlainRest(text) && RoutesTo(apis, t, chosen)
    requires RoutesTo(apis, Prefix(t) + text, actual) && Claim(apis[actual], Prefix(t) + text).value <= |Prefix(t)|
    ensures actual == chosen
  {
    hide Claim, Less, PlainRest, Settled, Open, Prefix, FirstHole;
    TemplateSplits(t);
    if actual != chosen {
      assert Beats(apis, Prefix(t) + text, actual, chosen);
      if Open(t, apis[chosen]) { OpenAtTemplate(t, apis[chosen], text); }
      SettledEarly(t, apis[chosen]);
      EarlyRoutesAgree(apis, Prefix(t), t[FirstHole(t)..], text, chosen, actual);
    }
  }

  lemma OpenAtTemplate(t: string, listen: string, text: string)
    requires Open(t, listen) && PlainRest(text)
    ensures Claim(listen, Prefix(t) + text) == Some(|Prefix(t)| + SegmentRun(text)) && SegmentRun(text) > 0
  {
    OpenClaims(listen, Prefix(t), text);
  }

  /** A request routes to an open listen path only if the template does, and to the same one. */
  lemma OpenRoute(apis: map<string, string>, t: string, chosen: string, text: string, actual: string)
    requires forall id | id in apis :: Settled(t, apis[id]) || Open(t, apis[id])
    requires FirstHole(t) < |t| && PlainRest(text) && RoutesTo(apis, t, chosen)
    requires RoutesTo(apis, Prefix(t) + text, actual) && Open(t, apis[actual])
    ensures actual == chosen
  {
    hide Claim, Less, PlainRest, Settled, Open, Prefix, FirstHole, SegmentRun;
    TemplateSplits(t);
    var rest := t[FirstHole(t)..];
    OpenAtTemplate(t, apis[actual], text);
    OpenAtTemplate(t, apis[actual], rest);
    if actual != chosen {
      assert Beats(apis, t, chosen, actual) && Beats(apis, Prefix(t) + text, actual, chosen);
      if Open(t, apis[chosen]) {
        OpenAtTemplate(t, apis[chosen], text);
        OpenAtTemplate(t, apis[chosen], rest);
        LessTotal(actual, chosen);
      } else {
        SettledEarly(t, apis[chosen]);
      }
    }
  }

  /** AMBIGUITY COMPLETE.  Whatever the placeholders of a template become at run time, the request routes
      to an API build_map recorded for the template. */
  lemma EveryRouteRecorded(apis: map<string, string>, t: string, chosen: string, text: string, actual: string)
    requires forall id | id in apis :: Settled(t, apis[id]) || Open(t, apis[id])
    requires FirstHole(t) < |t| && PlainRest(text) && RoutesTo(apis, t, chosen)
    requires RoutesTo(apis, Prefix(t) + text, actual)
    ensures actual in Recorded(apis, t, chosen)
  {
    hide Claim, Less, Beats, Reaches, SplitVars, StripSlashes, CouldExtendInto, Prefix, FirstHole, Open, PlainRest;
    if Open(t, apis[actual]) {
      OpenRoute(apis, t, chosen, text, actual);
    } else if Claim(apis[actual], Prefix(t) + text).value <= |Prefix(t)| {
      EarlyRoute(apis, t, chosen, text, actual);
    } else {
      LateClaim(apis[actual], Prefix(t), text);
    }
  }

  lemma {:induction false} HeadIsPrefix(s: string)
    ensures SplitVars(s)[0] <= s
    decreases |s|
  {
    if s == "" {
    } else if FieldEnd(s) == 0 {
      HeadIsPrefix(s[1..]);
    }
  }

  /** A listen path meets the condition when its literal text up to the first variable is not a prefix of
      the template's. */
  lemma HeadSettled(t: string, listen: string)
    requires FirstHole(t) < |t|
    requires var parts := SplitVars(StripSlashes(listen)); BraceFree(parts[0]) && (|parts| == 1 || !(parts[0] <= Prefix(t)))
    ensures Settled(t, listen)
  {
    var k, stripped := FirstHole(t), StripSlashes(listen);
    var parts := SplitVars(stripped);
    HeadIsPrefix(stripped);
    hide SplitVars, StripSlashes, FirstHole;
    if Reaches(parts, Prefix(t)) {
      assert |parts[0]| > k && Prefix(t) <= parts[0];
      assert stripped[..k] == parts[0][..k] == Prefix(t);
      assert t[k] == t[k..][0] == '{';
      assert parts[0][k] in parts[0];
      assert !(parts[0] <= t);
    }
  }

  /** Literal listen paths meet it for every template. */
  lemma LiteralSettled(t: string, listen: string)
    requires BraceFree(listen) && FirstHole(t) < |t|
    ensures Settled(t, listen)
  {
    StripBraceFree(listen);
    NoVariables(StripSlashes(listen));
    HeadSettled(t, listen);
  }

  /** So do those with fewer slashes than the template's literal prefix. */
  lemma ShortSettled(t: string, listen: string)
    requires SlashesIn(SplitVars(StripSlashes(listen))) < Slashes(Prefix(t))
    ensures Settled(t, listen)
  {
    var parts, s := SplitVars(StripSlashes(listen)), Prefix(t);
    hide SplitVars, StripSlashes, Prefix, MatchesTo;
    if Reaches(parts, s) {
      var more := MatchedIfReaches(parts, s);
      var path := s + (more + "/");
      MatchSlashes(parts, path, |s + more|);
      assert path[..|s|] == s;
      SlashesGrow(path, |s|, |s + more|);
      assert false;
    }
  }

  // -- the condition is exact ------------------------------------------------------------------------

  /** A catalogue of the root and one other listen path. */
  function RootAnd(listen: string): map<string, string> {
    map["inner" := listen, "outer" := "/"]
  }

  /** Every request made from the template routes to a recorded API. */
  ghost predicate AllRecorded(apis: map<string, string>, t: string) {
    forall chosen, text, actual ::
      RoutesTo(apis, t, chosen) && PlainRest(text) && RoutesTo(apis, Prefix(t) + text, actual)
      ==> actual in Recorded(apis, t, chosen)
  }

  lemma RootIds(listen: string)
    ensures RootAnd(listen).Keys == {"inner", "outer"} && Less("inner", "outer") && !Less("outer", "inner")
    ensures RootAnd(listen)["inner"] == listen && RootAnd(listen)["outer"] == "/"
  {
    assert "outer"[0] == 'o' && "inner"[0] == 'i';
  }

  lemma RootClaims(path: string)
    requires path != "" && path[0] == '/'
    ensures StripSlashes("/") == "" && Claim("/", path) == Some(0)
  {
    assert "/"[..0] == "";
    LiteralClaim("/", path);
    assert path[0..] == path;
  }

  /** Beside the root, a listen path takes what it claims, and the root the rest. */
  lemma RootRoutes(listen: string, path: string)
    requires path != "" && path[0] == '/'
    ensures RoutesTo(RootAnd(listen), path, "inner") <==> Claim(listen, path).Some?
    ensures RoutesTo(RootAnd(listen), path, "outer") <==> Claim(listen, path).None?
  {
    RootClaims(path);
    RootIds(listen);
    hide Claim, Less;
    var apis := RootAnd(listen);
    forall id | id in apis ensures id == "inner" || id == "outer" { assert id in apis.Keys; }
    assert "inner" in apis.Keys && "outer" in apis.Keys;
    if Claim(listen, path).Some? {
      assert Beats(apis, path, "inner", "outer") && !Beats(apis, path, "outer", "inner");
    }
  }

  /** THE CONDITION IS EXACT.  Beside the root, a listen path leaves no route of a template unrecorded
      if and only if it meets the condition of the theorem. */
  lemma ConditionExact(t: string, listen: string)
    requires t != "" && t[0] == '/' && FirstHole(t) < |t|
    ensures Settled(t, listen) || Open(t, listen) <==> AllRecorded(RootAnd(listen), t)
  {
    hide Claim, Less, RoutesTo, FirstHole, Reaches, SplitVars, StripSlashes, Open;
    var apis := RootAnd(listen);
    RootIds(listen);
    RootRoutes(listen, t);
    if Settled(t, listen) || Open(t, listen) {
      RecordedBesideRoot(t, listen);
    } else if Claim(listen, t).None? {
      var text := EscapesInto(t, listen);
      assert RoutesTo(apis, t, "outer") && "inner" !in Recorded(apis, t, "outer");
    } else {
      var text := Unclaimed(t, listen);
      PrefixStarts(t, text);
      RootRoutes(listen, Prefix(t) + text);
      RootClaims(t);
      assert "outer" !in Recorded(apis, t, "inner");
    }
  }

  lemma PrefixStarts(t: string, text: string)
    requires t != "" && t[0] == '/' && FirstHole(t) < |t|
    ensures Prefix(t) != "" && (Prefix(t) + text)[0] == '/'
  {
    assert t[FirstHole(t)..][0] == '{';
  }

  lemma RecordedBesideRoot(t: string, listen: string)
    requires t != "" && t[0] == '/' && FirstHole(t) < |t|
    requires Settled(t, listen) || Open(t, listen)
    ensures AllRecorded(RootAnd(listen), t)
  {
    hide Claim, Settled, Less, RoutesTo, Recorded, FirstHole, Prefix, PlainRest, Open;
    var apis := RootAnd(listen);
    RootIds(listen);
    RootRoutes(listen, t);
    LiteralSettled(t, "/");
    forall id | id in apis ensures Settled(t, apis[id]) || Open(t, apis[id]) { assert id in apis.Keys; }
    forall chosen, text, actual | RoutesTo(apis, t, chosen) && PlainRest(text) && RoutesTo(apis, Prefix(t) + text, actual)
      ensures actual in Recorded(apis, t, chosen)
    {
      EveryRouteRecorded(apis, t, chosen, text, actual);
    }
  }

  /** A listen path that claims the template and is neither settled nor open leaves one of two values of
      one character unclaimed. */
  lemma Unclaimed(t: string, listen: string) returns (text: string)
    requires FirstHole(t) < |t| && !Settled(t, listen) && !Open(t, listen)
    ensures PlainRest(text) && Claim(listen, Prefix(t) + text).None?
  {
    var parts, s := SplitVars(StripSlashes(listen)), Prefix(t);
    text := if Claim(listen, s + "x").None? then "x" else "y";
    if Claim(listen, s + text).Some? {
      ClaimsOne(t, listen, "x");
      ClaimsOne(t, listen, "y");
      hide Claim, SplitVars, StripSlashes;
      OpenIfBoth(parts, s);
      assert false;
    }
  }

  lemma ClaimsOne(t: string, listen: string, text: string)
    requires FirstHole(t) < |t| && !Settled(t, listen) && PlainRest(text) && |text| == 1
    requires Claim(listen, Prefix(t) + text).Some?
    ensures MatchesTo(SplitVars(StripSlashes(listen)), Prefix(t) + text, |Prefix(t)| + 1)
  {
    hide SplitVars, StripSlashes, MatchEnd, MatchesTo, FirstHole, Reaches, CouldExtendInto;
    var parts, s, e := SplitVars(StripSlashes(listen)), Prefix(t), Claim(listen, Prefix(t) + text).value;
    MatchEndMeans(parts, s + text);
    MatchSlashes(parts, s + text, e);
    if e <= |s| {
      EarlyClaim(listen, s, text, text);
      EarlySettled(t, listen, text, e);
    }
  }

  /** A claim that ends early leaves the listen path no slash to reach further with. */
  lemma EarlySettled(t: string, listen: string, text: string, e: nat)
    requires MatchesTo(SplitVars(StripSlashes(listen)), Prefix(t) + text, e) && e < |Prefix(t)| && |text| == 1
    ensures Settled(t, listen)
  {
    hide SplitVars, StripSlashes, MatchesTo, FirstHole, Prefix, Settled;
    var s := Prefix(t);
    MatchSlashes(SplitVars(StripSlashes(listen)), s + text, e);
    assert (s + text)[e..][0] == s[e] && |(s + text)[e..]| > 1;
    assert (s + text)[..e] == s[..e] && s[..|s|] == s;
    SlashesGrow(s, e, |s|);
    ShortSettled(t, listen);
  }

  /** A value that takes the claim past the literal prefix, onto an API that is not recorded. */
  lemma EscapesInto(t: string, listen: string) returns (text: string)
    requires t != "" && t[0] == '/' && FirstHole(t) < |t|
    requires Reaches(SplitVars(StripSlashes(listen)), Prefix(t))
    ensures PlainRest(text) && RoutesTo(RootAnd(listen), Prefix(t) + text, "inner")
  {
    var parts := SplitVars(StripSlashes(listen));
    assert t[FirstHole(t)..][0] == '{';
    hide SplitVars, StripSlashes, Reaches, Claim, FirstHole, RoutesTo, MatchesTo;
    var more := MatchedIfReaches(parts, Prefix(t));
    text := more + "/";
    var path := Prefix(t) + text;
    assert path[|Prefix(t) + more|] == '/';
    ClaimUnique(listen, path, |Prefix(t) + more|);
    assert path[0] == t[0];
    RootRoutes(listen, path);
  }

  // -- where detection falls short -------------------------------------------------------------------

  const NESTED: map<string, string> := map["outer" := "/a", "inner" := "/a/b"]

  /** The condition on the value is exact: any other value takes the template `/a/b{}`, which
      routes to the outer API, to the inner one, which is not recorded. */
  lemma OtherValuesEscape(text: string)
    requires !PlainRest(text)
    ensures LiteralPaths(NESTED) && RoutesTo(NESTED, "/a/b{}", "outer")
    ensures RoutesTo(NESTED, Prefix("/a/b{}") + text, "inner")
    ensures "inner" !in Recorded(NESTED, "/a/b{}", "outer")
  {
    NestedTemplate();
    NestedClaims("/a/b{}", "{}");
    NestedClaims("/a/b" + text, text);
    NestedIds();
    Nested(NESTED, "outer", "inner", "/a/b{}", "/a/b" + text);
  }

  lemma NestedIds()
    ensures NESTED.Keys == {"outer", "inner"} && "outer" != "inner"
    ensures NESTED["outer"] == "/a" && NESTED["inner"] == "/a/b"
  {
    assert "outer"[0] != "inner"[0];
  }

  lemma NestedTemplate()
    ensures FirstHole("/a/b{}") == 4 && "/a/b{}"[..4] == "/a/b" && StripSlashes("/a/b") == "/a/b"
    ensures "/a/b{}" == "/a/b" + "{}" && LiteralPaths(NESTED)
  {
    assert "/a/b{}" == "/a/b" + "{}";
    HoleAfter("/a/b", "{}");
  }

  /** Two nested listen paths: the template is the outer one's, the request the inner one's. */
  lemma Nested(apis: map<string, string>, outer: string, inner: string, t: string, path: string)
    requires apis.Keys == {outer, inner} && outer != inner
    requires FirstHole(t) == |StripSlashes(apis[inner])| < |t|
    requires Claim(apis[outer], t).Some? && Claim(apis[inner], t).None?
    requires Claim(apis[outer], path).Some? && Claim(apis[inner], path).Some?
    requires Claim(apis[outer], path).value < Claim(apis[inner], path).value
    ensures RoutesTo(apis, t, outer) && RoutesTo(apis, path, inner)
    ensures inner !in Recorded(apis, t, outer)
  {
    hide Claim, StripSlashes, FirstHole, Less;
    forall id | id in apis ensures id == outer || id == inner { assert id in apis.Keys; }
    assert outer in apis.Keys && inner in apis.Keys;
  }

  lemma {:induction false} HoleAfter(a: string, rest: string)
    requires BraceFree(a) && HOLE <= rest
    ensures FirstHole(a + rest) == |a|
  {
    if a == "" {
      assert a + rest == rest;
    } else {
      assert a[0] in a;
      forall c | c in a[1..] ensures c in a {}
      HoleAfter(a[1..], rest);
      assert (a + rest)[1..] == a[1..] + rest && (a + rest)[0] == a[0];
    }
  }

  lemma NestedClaims(path: string, text: string)
    requires path == "/a/b" + text
    ensures Claim("/a", path) == Some(2)
    ensures Claim("/a/b", path) == if Boundary(text) then Some(4) else None
  {
    LiteralClaim("/a", path);
    LiteralClaim("/a/b", path);
    assert StripSlashes("/a") == "/a" && StripSlashes("/a/b") == "/a/b";
    assert path[..2] == "/a" && path[2..][0] == '/';
    assert path[4..] == text;
  }

  const VARIABLE: map<string, string> := map["outer" := "/a", "inner" := "/a/{v}/b"]

  /** Listen paths with variables that do not meet the condition escape it: `/a/v1{}`, which routes to
      the outer API, can become `/a/v12/b`, which routes to the inner one. */
  lemma VariablePathEscapes()
    ensures RoutesTo(VARIABLE, "/a/v1{}", "outer") && PlainRest("2/b")
    ensures RoutesTo(VARIABLE, Prefix("/a/v1{}") + "2/b", "inner")
    ensures "inner" !in Recorded(VARIABLE, "/a/v1{}", "outer")
  {
    hide Claim, CouldExtendInto, Less, FirstHole;
    VariableClaims();
    VariableIds();
    NotDetected();
    forall id | id in VARIABLE ensures id == "outer" || id == "inner" { assert id in VARIABLE.Keys; }
    assert "outer" in VARIABLE.Keys && "inner" in VARIABLE.Keys;
    assert Prefix("/a/v1{}") + "2/b" == "/a/v12/b" by { assert "/a/v1" + "2/b" == "/a/v12/b"; }
  }

  lemma VariableClaims()
    ensures Claim("/a", "/a/v1{}") == Some(2) && Claim("/a/{v}/b", "/a/v1{}").None?
    ensures Claim("/a", "/a/v12/b") == Some(2) && Claim("/a/{v}/b", "/a/v12/b") == Some(8)
    ensures Prefix("/a/v1{}") == "/a/v1"
  {
    hide StripSlashes, SplitVars, MatchEnd, FirstHole;
    StrippedExamples();
    InnerClaim();
    OuterClaims();
    VariableParts();
    assert "/a/v1{}" == "/a/v1" + "{}";
    HoleAfter("/a/v1", "{}");
  }

  lemma VariableIds()
    ensures VARIABLE.Keys == {"outer", "inner"} && "outer" != "inner"
    ensures VARIABLE["outer"] == "/a" && VARIABLE["inner"] == "/a/{v}/b"
  {
    assert "outer"[0] != "inner"[0];
  }

  lemma VariableParts()
    ensures SplitVars("/a/{v}/b") == ["/a/", "/b"]
  {
    assert "/a/{v}/b" == "/a/" + "{v}" + "/b";
    SplitOne("/a/", "/b");
  }

  lemma NotDetected()
    ensures !CouldExtendInto("/a/v1{}", "/a/{v}/b")
  {
    StrippedExamples();
    assert "/a/v1{}" == "/a/v1" + "{}";
    HoleAfter("/a/v1", "{}");
    hide StripSlashes, FirstHole;
    assert "/a/v1{}"[..5][3] == 'v' && "/a/{v}/b"[3] == '{';
  }

  lemma OuterClaims()
    ensures Claim("/a", "/a/v1{}") == Some(2) && Claim("/a", "/a/v12/b") == Some(2)
  {
    StrippedExamples();
    LiteralClaim("/a", "/a/v1{}");
    LiteralClaim("/a", "/a/v12/b");
    assert "/a/v1{}"[2..][0] == '/' && "/a/v12/b"[2..][0] == '/';
  }

  lemma StrippedExamples()
    ensures StripSlashes("/a") == "/a" && StripSlashes("/a/{v}/b") == "/a/{v}/b"
  {}

  lemma InnerClaim()
    ensures MatchEnd(["/a/", "/b"], "/a/v1{}").None?
    ensures MatchEnd(["/a/", "/b"], "/a/v12/b") == Some(8)
  {
    assert ["/a/", "/b"][1..] == ["/b"];
    assert "/a/v1{}"[3..] == "v1{}" && "/a/v12/b"[3..] == "v12/b";
    NoInnerMatch("v1{}", SegmentRun("v1{}"));
    RunTo("v12", "/b");
    assert "v12" + "/b" == "v12/b" && "v12/b"[3..] == "/b" && "/b"[2..] == "";
    assert MatchEnd(["/b"], "/b") == Some(2);
  }

  lemma {:induction false} RunTo(a: string, rest: string)
    requires '/' !in a && rest != "" && rest[0] == '/'
    ensures SegmentRun(a + rest) == |a|
  {
    if a == "" {
      assert a + rest == rest;
    } else {
      assert a[0] in a;
      forall c | c in a[1..] ensures c in a {}
      RunTo(a[1..], rest);
      assert (a + rest)[1..] == a[1..] + rest;
    }
  }

  lemma {:induction false} SplitOne(a: string, b: string)
    requires BraceFree(a) && BraceFree(b)
    ensures SplitVars(a + "{v}" + b) == [a, b]
  {
    var s := a + "{v}" + b;
    if a == "" {
      NoVariables(b);
      assert s[1..] == "v}" + b && s[1..][1..] == "}" + b && s[3..] == b;
      assert PlainLength("}" + b) == 0 && PlainLength(s[1..]) == 1;
      assert FieldEnd(s) == 3;
    } else {
      assert a[0] in a;
      forall c | c in a[1..] ensures c in a {}
      SplitOne(a[1..], b);
      assert s[1..] == a[1..] + "{v}" + b && s[0] == a[0];
      assert [a[0]] + a[1..] == a;
    }
  }

  /** Nothing in s continues with "/b" when s has no slash. */
  lemma {:induction false} NoInnerMatch(s: string, n: nat)
    requires n <= |s| && '/' !in s
    ensures MatchVar(["/b"], s, n).None?
    decreases n
  {
    if n == 0 {
    } else {
      SlashFree(s, n);
      NoInnerMatch(s, n - 1);
    }
  }

  lemma SlashFree(s: string, n: nat)
    requires n <= |s| && '/' !in s
    ensures !("/b" <= s[n..])
  {
    if n < |s| {
      assert s[n..][0] == s[n] && s[n] in s;
      assert "/b"[0] != s[n..][0];
    }
  }
}
