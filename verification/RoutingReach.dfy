/** What a listen path can match: the anchored match as a decomposition, why its end is fixed by the
    slashes it uses up, and how far a request can be made to extend it. */
module RoutingReach {
  import opened Options
  import opened Routing

  // -- matches as decompositions ---------------------------------------------------------------------

  /** The parts match s up to e, each variable between them taking some characters of one segment. */
  ghost predicate MatchesTo(parts: seq<string>, s: string, e: nat)
    requires parts != []
    decreases |parts|
  {
    && parts[0] <= s
    && if |parts| == 1 then e == |parts[0]| && Boundary(s[e..])
       else exists m :: |parts[0]| < m <= |s| && m <= e && '/' !in s[|parts[0]|..m] && MatchesTo(parts[1..], s[m..], e - m)
  }

  /** The first variable of a match ends at m. */
  ghost predicate VariableTo(parts: seq<string>, s: string, e: nat, m: nat) {
    && |parts| > 1 && parts[0] <= s && |parts[0]| < m <= |s| && m <= e
    && '/' !in s[|parts[0]|..m] && MatchesTo(parts[1..], s[m..], e - m)
  }

  lemma VariableMatches(parts: seq<string>, s: string, e: nat)
    requires |parts| > 1
    ensures MatchesTo(parts, s, e) <==> exists m: nat :: VariableTo(parts, s, e, m)
  {
    if m: nat :| VariableTo(parts, s, e, m) { assert s[m..] == s[m..]; }
    if MatchesTo(parts, s, e) {
      var m :| |parts[0]| < m <= |s| && m <= e && '/' !in s[|parts[0]|..m] && MatchesTo(parts[1..], s[m..], e - m);
      assert VariableTo(parts, s, e, m);
    }
  }

  lemma LastMatches(parts: seq<string>, s: string, e: nat)
    requires |parts| == 1
    ensures MatchesTo(parts, s, e) <==> parts[0] <= s && e == |parts[0]| && Boundary(s[e..])
  {}

  lemma {:induction false} RunIsPlain(s: string, n: nat)
    requires n <= |s|
    ensures n <= SegmentRun(s) <==> '/' !in s[..n]
  {
    if n == 0 {
    } else {
      RunIsPlain(s[1..], n - 1);
      assert s[..n] == [s[0]] + s[1..][..n - 1];
    }
  }

  /** Backtracking finds a match if there is one. */
  lemma {:induction false} MatchEndMeans(parts: seq<string>, s: string)
    requires parts != []
    ensures var found := MatchEnd(parts, s);
      if found.Some? then MatchesTo(parts, s, found.value) else forall e: nat :: !MatchesTo(parts, s, e)
    decreases |parts|, 0
  {
    hide MatchesTo, SegmentRun;
    if |parts| == 1 {
      forall e: nat ensures MatchesTo(parts, s, e) <==> parts[0] <= s && e == |parts[0]| && Boundary(s[e..]) {
        LastMatches(parts, s, e);
      }
    } else if !(parts[0] <= s) {
      forall e: nat ensures !MatchesTo(parts, s, e) { VariableMatches(parts, s, e); }
    } else {
      var p, rest := |parts[0]|, s[|parts[0]|..];
      var found := MatchVar(parts[1..], rest, SegmentRun(rest));
      MatchVarMeans(parts[1..], rest, SegmentRun(rest));
      if found.Some? {
        var k :| 1 <= k <= SegmentRun(rest) && k <= found.value && MatchesTo(parts[1..], rest[k..], found.value - k);
        FirstVariable(parts, s, found.value, k);
        VariableMatches(parts, s, p + found.value);
      } else {
        forall e: nat ensures !MatchesTo(parts, s, e) {
          VariableMatches(parts, s, e);
          if m: nat :| VariableTo(parts, s, e, m) { FirstVariable(parts, s, e - p, m - p); }
        }
      }
    }
  }

  /** The first variable takes a stretch of its segment. */
  lemma FirstVariable(parts: seq<string>, s: string, e: nat, k: nat)
    requires |parts| > 1 && parts[0] <= s
    ensures var rest, p := s[|parts[0]|..], |parts[0]|;
      VariableTo(parts, s, p + e, p + k) <==>
        1 <= k <= SegmentRun(rest) && k <= e && MatchesTo(parts[1..], rest[k..], e - k)
  {
    hide MatchesTo;
    var rest, p := s[|parts[0]|..], |parts[0]|;
    if 1 <= k <= |rest| {
      RunIsPlain(rest, k);
      assert rest[k..] == s[p + k..] && rest[..k] == s[p..p + k];
    }
  }

  lemma {:induction false} MatchVarMeans(parts: seq<string>, s: string, n: nat)
    requires parts != [] && n <= |s|
    ensures var found := MatchVar(parts, s, n);
      if found.Some? then exists k :: 1 <= k <= n && k <= found.value && MatchesTo(parts, s[k..], found.value - k)
      else forall k, e: nat :: 1 <= k <= n ==> !MatchesTo(parts, s[k..], e)
    decreases |parts|, n + 1
  {
    hide MatchesTo;
    if n == 0 {
    } else {
      MatchEndMeans(parts, s[n..]);
      MatchVarMeans(parts, s, n - 1);
    }
  }

  // -- a match uses up its slashes -------------------------------------------------------------------

  function Slashes(s: string): nat {
    if s == "" then 0 else (if s[0] == '/' then 1 else 0) + Slashes(s[1..])
  }

  function SlashesIn(parts: seq<string>): nat {
    if parts == [] then 0 else Slashes(parts[0]) + SlashesIn(parts[1..])
  }

  lemma {:induction false} SlashesConcat(a: string, b: string)
    ensures Slashes(a + b) == Slashes(a) + Slashes(b)
  {
    if a == "" {
      assert a + b == b;
    } else {
      SlashesConcat(a[1..], b);
      assert (a + b)[1..] == a[1..] + b;
    }
  }

  lemma {:induction false} NoSlashes(s: string)
    requires '/' !in s
    ensures Slashes(s) == 0
  {
    if s == "" {
    } else {
      NoSlashes(s[1..]);
    }
  }

  /** The longer prefix has more slashes if the shorter one ends at one. */
  lemma SlashesGrow(s: string, a: nat, b: nat)
    requires a <= b <= |s|
    ensures Slashes(s[..a]) <= Slashes(s[..b])
    ensures a < b && s[a] == '/' ==> Slashes(s[..a]) < Slashes(s[..b])
  {
    assert s[..b] == s[..a] + s[a..b];
    SlashesConcat(s[..a], s[a..b]);
    if a < b { assert s[a..b][0] == s[a]; }
  }

  /** Whatever it matches, a listen path takes as many slashes as it has. */
  lemma {:induction false} MatchSlashes(parts: seq<string>, s: string, e: nat)
    requires parts != [] && MatchesTo(parts, s, e)
    ensures e <= |s| && Slashes(s[..e]) == SlashesIn(parts) && Boundary(s[e..])
    decreases |parts|
  {
    hide MatchesTo, Boundary, Slashes;
    if |parts| == 1 {
      LastMatches(parts, s, e);
      assert parts[1..] == [] && s[..e] == parts[0];
    } else {
      VariableMatches(parts, s, e);
      var m: nat :| VariableTo(parts, s, e, m);
      MatchSlashes(parts[1..], s[m..], e - m);
      assert s[m..][e - m..] == s[e..] && s[..|parts[0]|] == parts[0];
      CutSlashes(s, |parts[0]|, m, e);
      assert SlashesIn(parts) == Slashes(parts[0]) + SlashesIn(parts[1..]);
    }
  }

  lemma CutSlashes(s: string, p: nat, m: nat, e: nat)
    requires p <= m <= e <= |s| && '/' !in s[p..m]
    ensures Slashes(s[..e]) == Slashes(s[..p]) + Slashes(s[m..][..e - m])
  {
    hide Slashes;
    assert s[..e] == s[..p] + (s[p..m] + s[m..][..e - m]);
    SlashesConcat(s[..p], s[p..m] + s[m..][..e - m]);
    SlashesConcat(s[p..m], s[m..][..e - m]);
    NoSlashes(s[p..m]);
  }

  /** At a boundary before another, a slash. */
  lemma BoundaryCounts(s: string, f: nat, e: nat)
    requires f < e < |s| && Boundary(s[f..])
    ensures Slashes(s[..f]) < Slashes(s[..e])
  {
    assert s[f..][0] == s[f] && |s[f..]| > 1;
    SlashesGrow(s, f, e);
  }

  /** So no two matches end apart, if one ends at a slash. */
  lemma MatchUnique(parts: seq<string>, s: string, e: nat, f: nat)
    requires parts != [] && MatchesTo(parts, s, e) && MatchesTo(parts, s, f) && e < |s| && s[e] == '/'
    ensures e == f
  {
    hide MatchesTo, Slashes, Boundary;
    MatchSlashes(parts, s, e);
    MatchSlashes(parts, s, f);
    if e < f { SlashesGrow(s, e, f); }
    if f < e { BoundaryCounts(s, f, e); }
  }

  lemma ClaimUnique(listen: string, path: string, e: nat)
    requires MatchesTo(SplitVars(StripSlashes(listen)), path, e) && e < |path| && path[e] == '/'
    ensures Claim(listen, path) == Some(e)
  {
    var parts := SplitVars(StripSlashes(listen));
    hide MatchEnd, MatchesTo, SplitVars, StripSlashes;
    MatchEndMeans(parts, path);
    MatchUnique(parts, path, e, MatchEnd(parts, path).value);
  }

  /** What a match says depends only on the text up to the slash it ends at. */
  lemma {:induction false} MatchCarries(parts: seq<string>, a: string, b: string, e: nat)
    requires parts != [] && MatchesTo(parts, a, e) && e < |a| && e < |b| && a[e] == '/' && a[..e + 1] == b[..e + 1]
    ensures MatchesTo(parts, b, e)
    decreases |parts|
  {
    hide MatchesTo;
    var p := |parts[0]|;
    assert b[e] == b[..e + 1][e] == a[..e + 1][e] == a[e];
    if |parts| == 1 {
      LastMatches(parts, a, e);
      SameSlice(a, b, e + 1, 0, p);
      assert a[0..p] == parts[0] && b[e..][0] == b[e];
      LastMatches(parts, b, e);
    } else {
      VariableMatches(parts, a, e);
      var m: nat :| VariableTo(parts, a, e, m);
      SameSlice(a, b, e + 1, 0, p);
      SameSlice(a, b, e + 1, p, m);
      SameSlice(a, b, e + 1, m, e + 1);
      assert a[m..][..e + 1 - m] == a[m..e + 1] && b[m..][..e + 1 - m] == b[m..e + 1];
      MatchCarries(parts[1..], a[m..], b[m..], e - m);
      assert a[0..p] == parts[0] && b[0..p] == parts[0];
      assert VariableTo(parts, b, e, m);
      VariableMatches(parts, b, e);
    }
  }

  lemma SameSlice(a: string, b: string, n: nat, i: nat, j: nat)
    requires i <= j <= n <= |a| && n <= |b| && a[..n] == b[..n]
    ensures a[i..j] == b[i..j]
  {
    assert a[i..j] == a[..n][i..j] && b[i..j] == b[..n][i..j];
  }

  // -- how far a listen path can be made to reach ----------------------------------------------------

  /** At run time the value replaces the first placeholder: `text` is it and all that follows. */
  ghost predicate PlainRest(text: string) {
    text != "" && text[0] != '/' && text != "\n"
  }

  /** Some continuation of s lets the parts match beyond s. */
  predicate Reaches(parts: seq<string>, s: string)
    requires parts != []
    decreases |parts|
  {
    if |s| < |parts[0]| then s <= parts[0] && parts[0][|s|] != '/'
    else
      && parts[0] <= s && |parts| > 1
      && ('/' !in s[|parts[0]|..] || exists m :: |parts[0]| < m <= |s| && '/' !in s[|parts[0]|..m] && Reaches(parts[1..], s[m..]))
  }

  lemma {:induction false} ReachesIfMatched(parts: seq<string>, s: string, text: string, e: nat)
    requires parts != [] && text != "" && text[0] != '/' && MatchesTo(parts, s + text, e) && e > |s|
    ensures Reaches(parts, s)
    decreases |parts|
  {
    hide MatchesTo;
    var p, path := |parts[0]|, s + text;
    if |parts| == 1 { LastMatches(parts, path, e); } else { VariableMatches(parts, path, e); }
    if |s| < p {
      assert parts[0] == path[..p] && s == path[..|s|] && path[|s|] == text[0];
    } else {
      assert parts[0] == path[..p] == s[..p];
      var m: nat :| VariableTo(parts, path, e, m);
      if m <= |s| {
        assert path[m..] == s[m..] + text && path[p..m] == s[p..m];
        ReachesIfMatched(parts[1..], s[m..], text, e - m);
      } else {
        assert path[p..m] == s[p..] + path[|s|..m];
      }
    }
  }

  /** The parts with one character for each variable. */
  function Joined(parts: seq<string>): string
    requires parts != []
  {
    if |parts| == 1 then parts[0] else parts[0] + ("x" + Joined(parts[1..]))
  }

  lemma {:induction false} JoinedMatches(parts: seq<string>)
    requires parts != []
    ensures MatchesTo(parts, Joined(parts) + "/", |Joined(parts)|)
    decreases |parts|
  {
    hide MatchesTo;
    var path, p := Joined(parts) + "/", |parts[0]|;
    if |parts| == 1 {
      assert path[p..] == "/";
      LastMatches(parts, path, p);
    } else {
      JoinedMatches(parts[1..]);
      var rest := Joined(parts[1..]) + "/";
      hide Joined;
      assert path == parts[0] + ("x" + rest);
      assert path[..p] == parts[0] && path[p..p + 1] == "x" && path[p + 1..] == rest;
      VariableMatches(parts, path, |path| - 1);
      assert VariableTo(parts, path, |path| - 1, p + 1);
    }
  }

  lemma {:induction false} MatchedIfReaches(parts: seq<string>, s: string) returns (more: string)
    requires parts != [] && Reaches(parts, s)
    ensures more != "" && more[0] != '/' && MatchesTo(parts, s + (more + "/"), |s + more|)
    decreases |parts|
  {
    hide MatchesTo, Joined;
    var p := |parts[0]|;
    if |s| < p {
      more := JoinedPast(parts, s);
    } else if '/' !in s[p..] {
      more := "x" + Joined(parts[1..]);
      JoinedMatches(parts[1..]);
      assert (more + "/")[1..] == Joined(parts[1..]) + "/";
      StepOver(parts, s, more);
    } else {
      var m :| p < m <= |s| && '/' !in s[p..m] && Reaches(parts[1..], s[m..]);
      more := MatchedIfReaches(parts[1..], s[m..]);
      StepWithin(parts, s, more, m);
    }
  }

  /** The first variable ends within s, at m. */
  lemma StepWithin(parts: seq<string>, s: string, more: string, m: nat)
    requires |parts| > 1 && parts[0] <= s && |parts[0]| < m <= |s| && '/' !in s[|parts[0]|..m]
    requires MatchesTo(parts[1..], s[m..] + (more + "/"), |s[m..] + more|)
    ensures MatchesTo(parts, s + (more + "/"), |s + more|)
  {
    hide MatchesTo;
    var path, p := s + (more + "/"), |parts[0]|;
    assert path[..p] == parts[0] && path[p..m] == s[p..m] && path[m..] == s[m..] + (more + "/");
    assert |s[m..] + more| == |s + more| - m;
    VariableMatches(parts, path, |s + more|);
    assert VariableTo(parts, path, |s + more|, m);
  }

  /** The first variable runs on past s. */
  lemma StepOver(parts: seq<string>, s: string, more: string)
    requires |parts| > 1 && parts[0] <= s && '/' !in s[|parts[0]|..] && more != "" && more[0] != '/'
    requires MatchesTo(parts[1..], (more + "/")[1..], |more| - 1)
    ensures MatchesTo(parts, s + (more + "/"), |s + more|)
  {
    hide MatchesTo;
    var path, p := s + (more + "/"), |parts[0]|;
    assert path[..p] == parts[0] && path[p..|s| + 1] == s[p..] + [more[0]];
    assert path[|s| + 1..] == (more + "/")[1..];
    VariableMatches(parts, path, |s + more|);
    assert VariableTo(parts, path, |s + more|, |s| + 1);
  }

  lemma JoinedPast(parts: seq<string>, s: string) returns (more: string)
    requires parts != [] && |s| < |parts[0]| && s <= parts[0] && parts[0][|s|] != '/'
    ensures more != "" && more[0] != '/' && MatchesTo(parts, s + (more + "/"), |s + more|)
  {
    hide MatchesTo;
    more := Joined(parts)[|s|..];
    assert Joined(parts)[..|parts[0]|] == parts[0] && Joined(parts)[..|s|] == parts[0][..|s|] == s;
    JoinedMatches(parts);
    assert s + more == Joined(parts) && s + (more + "/") == Joined(parts) + "/";
  }

  /** A claim that ends within the literal prefix does not depend on what follows it. */
  lemma EarlyClaim(listen: string, s: string, x: string, y: string)
    requires PlainRest(x) && PlainRest(y) && Claim(listen, s + x).Some? && Claim(listen, s + x).value <= |s|
    ensures Claim(listen, s + y) == Claim(listen, s + x) && Claim(listen, s + x).value < |s|
  {
    var parts, e := SplitVars(StripSlashes(listen)), Claim(listen, s + x).value;
    hide SplitVars, StripSlashes, MatchEnd, MatchesTo;
    assert (s + x)[|s|..] == x;
    MatchEndMeans(parts, s + x);
    MatchSlashes(parts, s + x, e);
    assert (s + x)[e..][0] == (s + x)[e];
    assert (s + x)[..e + 1] == s[..e + 1] == (s + y)[..e + 1];
    MatchCarries(parts, s + x, s + y, e);
    assert (s + y)[e] == s[e] == (s + x)[e];
    ClaimUnique(listen, s + y, e);
  }

  lemma LateClaim(listen: string, s: string, x: string)
    requires PlainRest(x) && Claim(listen, s + x).Some? && Claim(listen, s + x).value > |s|
    ensures Reaches(SplitVars(StripSlashes(listen)), s)
  {
    var parts := SplitVars(StripSlashes(listen));
    hide SplitVars, StripSlashes, MatchEnd, MatchesTo, Reaches;
    MatchEndMeans(parts, s + x);
    ReachesIfMatched(parts, s, x, MatchEnd(parts, s + x).value);
  }

  // -- listen paths that end in an open variable -----------------------------------------------------

  /** The parts can be matched up to their last variable so that it runs on past s, and nothing follows
      that variable. */
  predicate OpenEnd(parts: seq<string>, s: string)
    decreases |parts|
  {
    && |parts| > 1 && parts[0] <= s
    && ((|parts| == 2 && parts[1] == "" && '/' !in s[|parts[0]|..])
        || exists m :: |parts[0]| < m <= |s| && '/' !in s[|parts[0]|..m] && OpenEnd(parts[1..], s[m..]))
  }

  lemma {:induction false} RunEnds(s: string)
    ensures SegmentRun(s) == |s| || s[SegmentRun(s)] == '/'
  {
    if s == "" || s[0] == '/' {
    } else {
      RunEnds(s[1..]);
    }
  }

  lemma {:induction false} OpenMatches(parts: seq<string>, s: string, text: string)
    requires OpenEnd(parts, s) && text != "" && text[0] != '/'
    ensures MatchesTo(parts, s + text, |s| + SegmentRun(text))
    ensures parts[|parts| - 1] == ""
    decreases |parts|
  {
    hide MatchesTo, SegmentRun;
    var p, path, run := |parts[0]|, s + text, SegmentRun(text);
    VariableMatches(parts, path, |s| + run);
    if m :| p < m <= |s| && '/' !in s[p..m] && OpenEnd(parts[1..], s[m..]) {
      OpenMatches(parts[1..], s[m..], text);
      assert path[m..] == s[m..] + text && path[p..m] == s[p..m];
      assert VariableTo(parts, path, |s| + run, m);
    } else {
      LastVariable(parts, s, text);
    }
  }

  lemma LastVariable(parts: seq<string>, s: string, text: string)
    requires |parts| == 2 && parts[0] <= s && parts[1] == "" && '/' !in s[|parts[0]|..] && text != "" && text[0] != '/'
    ensures VariableTo(parts, s + text, |s| + SegmentRun(text), |s| + SegmentRun(text))
  {
    hide MatchesTo;
    var p, path, run := |parts[0]|, s + text, SegmentRun(text);
    RunEnds(text);
    RunIsPlain(text, run);
    assert path[p..|s| + run] == s[p..] + text[..run] && path[|s| + run..] == text[run..];
    assert text[run..] == "" || text[run..][0] == '/';
    LastMatches(parts[1..], path[|s| + run..], 0);
  }

  /** When nothing follows the last variable, the match runs to the end of a segment. */
  lemma {:induction false} MatchRunsOn(parts: seq<string>, s: string)
    requires |parts| > 1 && parts[|parts| - 1] == "" && MatchEnd(parts, s).Some?
    ensures var e := MatchEnd(parts, s).value; e == |s| || (e < |s| && s[e] == '/')
    decreases |parts|, 0
  {
    var rest := s[|parts[0]|..];
    if |parts| == 2 {
      RunEnds(rest);
      assert parts[1..] == [""];
      RunTaken(rest, SegmentRun(rest));
    } else {
      VariableRunsOn(parts[1..], rest, SegmentRun(rest));
    }
  }

  lemma RunTaken(s: string, n: nat)
    requires n == SegmentRun(s)
    ensures MatchVar([""], s, n) == if n == 0 then None else Some(n)
  {
    RunEnds(s);
    if n > 0 {
      assert s[n..] == "" || s[n..][0] == '/';
      assert MatchEnd([""], s[n..]) == Some(0);
    }
  }

  lemma {:induction false} VariableRunsOn(parts: seq<string>, s: string, n: nat)
    requires |parts| > 1 && parts[|parts| - 1] == "" && n <= |s| && MatchVar(parts, s, n).Some?
    ensures var e := MatchVar(parts, s, n).value; e == |s| || (e < |s| && s[e] == '/')
    decreases |parts|, n + 1
  {
    if MatchEnd(parts, s[n..]).Some? {
      MatchRunsOn(parts, s[n..]);
    } else {
      VariableRunsOn(parts, s, n - 1);
    }
  }

  /** An open listen path claims every continuation, up to the end of the segment it is in. */
  lemma OpenClaims(listen: string, s: string, text: string)
    requires OpenEnd(SplitVars(StripSlashes(listen)), s) && PlainRest(text)
    ensures Claim(listen, s + text) == Some(|s| + SegmentRun(text)) && SegmentRun(text) > 0
  {
    hide SplitVars, StripSlashes, MatchEnd, MatchesTo, SegmentRun, OpenEnd;
    var parts, path, run := SplitVars(StripSlashes(listen)), s + text, SegmentRun(text);
    RunStarts(text);
    OpenMatches(parts, s, text);
    MatchEndMeans(parts, path);
    OpenHasVariable(parts, s);
    RunEnds(text);
    assert |s| + run < |path| ==> path[|s| + run] == text[run];
    MatchRunsOn(parts, path);
    EndsAgree(parts, path, MatchEnd(parts, path).value, |s| + run);
  }

  lemma RunStarts(s: string)
    requires s != "" && s[0] != '/'
    ensures SegmentRun(s) > 0
  {}

  lemma OpenHasVariable(parts: seq<string>, s: string)
    requires OpenEnd(parts, s)
    ensures |parts| > 1
  {}

  /** Two matches that both end at the end of a segment end alike. */
  lemma EndsAgree(parts: seq<string>, s: string, e: nat, f: nat)
    requires parts != [] && MatchesTo(parts, s, e) && MatchesTo(parts, s, f) && e <= |s| && f <= |s|
    requires (e < |s| ==> s[e] == '/') && (f < |s| ==> s[f] == '/')
    ensures e == f
  {
    hide MatchesTo;
    if e < |s| { MatchUnique(parts, s, e, f); } else if f < |s| { MatchUnique(parts, s, f, e); }
  }

  lemma {:induction false} MatchEndsInLast(parts: seq<string>, s: string)
    requires parts != [] && MatchesTo(parts, s, |s|)
    ensures var last := parts[|parts| - 1]; last != "" ==> s != "" && last[|last| - 1] == s[|s| - 1]
    decreases |parts|
  {
    hide MatchesTo;
    if |parts| == 1 {
      LastMatches(parts, s, |s|);
    } else {
      VariableMatches(parts, s, |s|);
      var m: nat :| VariableTo(parts, s, |s|, m);
      MatchEndsInLast(parts[1..], s[m..]);
    }
  }

  lemma {:induction false} OpenIfLastEmpty(parts: seq<string>, s: string, c: char)
    requires |parts| > 1 && parts[|parts| - 1] == "" && MatchesTo(parts, s + [c], |s| + 1)
    ensures OpenEnd(parts, s)
    decreases |parts|
  {
    hide MatchesTo;
    var p, path := |parts[0]|, s + [c];
    VariableMatches(parts, path, |s| + 1);
    var m: nat :| VariableTo(parts, path, |s| + 1, m);
    assert parts[0] == path[..p] == s[..p];
    if |parts| == 2 {
      LastMatches(parts[1..], path[m..], |s| + 1 - m);
      assert path[p..m] == s[p..] + [c];
    } else {
      VariableMatches(parts[1..], path[m..], |s| + 1 - m);
      assert path[m..] == s[m..] + [c] && path[p..m] == s[p..m];
      OpenIfLastEmpty(parts[1..], s[m..], c);
    }
  }

  /** A path that claims two continuations by different characters, and past s, is open. */
  lemma OpenIfBoth(parts: seq<string>, s: string)
    requires parts != [] && MatchesTo(parts, s + "x", |s| + 1) && MatchesTo(parts, s + "y", |s| + 1)
    ensures OpenEnd(parts, s)
  {
    hide MatchesTo, OpenEnd;
    MatchEndsInLast(parts, s + "x");
    MatchEndsInLast(parts, s + "y");
    if |parts| == 1 { LastMatches(parts, s + "x", |s| + 1); }
    OpenIfLastEmpty(parts, s, 'x');
  }
}
