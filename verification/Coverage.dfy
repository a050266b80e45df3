/** Matching documented paths against tool templates, segment by segment: when a match means that
    one segment describes every request the other does. */
module Coverage {
  import opened Templates

  predicate OneLine(s: string) {
    '\n' !in s
  }

  /** _segment_regex(t).fullmatch(s): each placeholder is `.+`.  Also what a segment denotes: its
      placeholders take non-empty values without a newline. */
  predicate Fills(t: string, s: string)
    decreases |t|
  {
    if t == "" then s == ""
    else if StartsWithHole(t) then exists k :: 0 < k <= |s| && OneLine(s[..k]) && Fills(t[2..], s[k..])
    else s != "" && s[0] == t[0] && Fills(t[1..], s[1..])
  }

  predicate HasHole(t: string) {
    t != "" && (StartsWithHole(t) || HasHole(t[1..]))
  }

  predicate SegmentMatch(a: string, b: string) {
    a == b || (HasHole(a) && Fills(a, b)) || (HasHole(b) && Fills(b, a))
  }

  predicate PathMatch(spec: seq<string>, tool: seq<string>) {
    |spec| == |tool| && forall i :: 0 <= i < |spec| ==> SegmentMatch(spec[i], tool[i])
  }

  predicate IsBrace(c: char) {
    c == '{' || c == '}'
  }

  /** Braces occur only as placeholders. */
  predicate Clean(t: string)
    decreases |t|
  {
    t == "" || (if StartsWithHole(t) then Clean(t[2..]) else !IsBrace(t[0]) && Clean(t[1..]))
  }

  predicate NoneAdjacent(t: string)
    decreases |t|
  {
    t == "" || (if StartsWithHole(t) then !StartsWithHole(t[2..]) && NoneAdjacent(t[2..]) else NoneAdjacent(t[1..]))
  }

  /** The prefixes of two texts, cut after a head and n, m characters of the rests. */
  lemma OneLineStep(h: string, x: string, n: nat, g: string, y: string, m: nat)
    requires n <= |x| && m <= |y| && (OneLine(h) ==> OneLine(g)) && (OneLine(x[..n]) ==> OneLine(y[..m]))
    ensures OneLine((h + x)[..|h| + n]) ==> OneLine((g + y)[..|g| + m])
  {
    assert (h + x)[..|h| + n] == h + x[..n] && (g + y)[..|g| + m] == g + y[..m];
  }

  // -- splitting -------------------------------------------------------------------------------------

  /** A clean text can be cut anywhere but inside a placeholder. */
  lemma {:induction false} CleanCut(t: string, k: nat)
    requires Clean(t) && k <= |t| && (k < |t| ==> t[k] != '}')
    ensures Clean(t[..k]) && Clean(t[k..])
    decreases |t|
  {
    if k == 0 {
    } else {
      if StartsWithHole(t) {
        assert k != 1;
        CleanCut(t[2..], k - 2);
        assert t[..k][2..] == t[2..][..k - 2] && t[2..][k - 2..] == t[k..];
      } else {
        CleanCut(t[1..], k - 1);
        assert t[..k][1..] == t[1..][..k - 1] && t[1..][k - 1..] == t[k..];
      }
    }
  }

  /** What fills a concatenation is a filling of each part. */
  lemma {:induction false} FillsCut(v: string, w: string, s: string) returns (m: nat)
    requires Clean(v) && Fills(v + w, s)
    ensures m <= |s| && Fills(v, s[..m]) && Fills(w, s[m..])
    decreases |v|, 1
  {
    if v == "" {
      assert v + w == w;
      m := 0;
    } else if StartsWithHole(v) {
      m := CutAtHole(v, w, s);
    } else {
      assert (v + w)[1..] == v[1..] + w && (v + w)[0] == v[0];
      var n := FillsCut(v[1..], w, s[1..]);
      m := 1 + n;
      Slices(s, 1, n);
    }
  }

  lemma Slices(s: string, k: nat, n: nat)
    requires k + n <= |s|
    ensures s[..k + n][..k] == s[..k] && s[..k + n][k..] == s[k..][..n] && s[k..][n..] == s[k + n..]
  {}

  lemma {:induction false} CutAtHole(v: string, w: string, s: string) returns (m: nat)
    requires Clean(v) && StartsWithHole(v) && Fills(v + w, s)
    ensures m <= |s| && Fills(v, s[..m]) && Fills(w, s[m..])
    decreases |v|, 0
  {
    var rest := v[2..] + w;
    assert (v + w)[2..] == rest;
    var k :| 0 < k <= |s| && OneLine(s[..k]) && Fills(rest, s[k..]);
    hide Fills, OneLine;
    var n := FillsCut(v[2..], w, s[k..]);
    m := k + n;
    Slices(s, k, n);
    HoleFills(v, s[..m], k);
  }

  lemma HoleFills(t: string, s: string, k: nat)
    requires StartsWithHole(t) && 0 < k <= |s| && OneLine(s[..k]) && Fills(t[2..], s[k..])
    ensures Fills(t, s)
  {}

  /** A one-line text is filled by one-line texts only. */
  lemma {:induction false} FillsOneLine(v: string, s: string)
    requires Fills(v, s) && OneLine(v)
    ensures OneLine(s) && (v != "" ==> s != "")
    decreases |v|
  {
    if v == "" {
    } else if StartsWithHole(v) {
      var k :| 0 < k <= |s| && OneLine(s[..k]) && Fills(v[2..], s[k..]);
      FillsOneLine(v[2..], s[k..]);
      assert s == s[..k] + s[k..];
    } else {
      assert v[0] in v;
      FillsOneLine(v[1..], s[1..]);
      assert s == [s[0]] + s[1..];
    }
  }

  // -- subsumption -----------------------------------------------------------------------------------

  /** A match composes: what fills b fills a. */
  lemma {:induction false} FillsThrough(a: string, b: string, s: string)
    requires Clean(a) && NoneAdjacent(a) && Clean(b) && Fills(a, b) && Fills(b, s)
    ensures Fills(a, s)
    decreases |a|
  {
    if a == "" {
    } else if StartsWithHole(a) {
      var k :| 0 < k <= |b| && OneLine(b[..k]) && Fills(a[2..], b[k..]);
      assert k < |b| ==> b[k..][0] == b[k] && b[k] != '}';
      CleanCut(b, k);
      assert b == b[..k] + b[k..];
      var m := FillsCut(b[..k], b[k..], s);
      FillsOneLine(b[..k], s[..m]);
      FillsThrough(a[2..], b[k..], s[m..]);
    } else {
      FillsThrough(a[1..], b[1..], s[1..]);
    }
  }

  /** t with each placeholder replaced by one character. */
  function Marked(t: string, c: char): string
    decreases |t|
  {
    if t == "" then "" else if StartsWithHole(t) then [c] + Marked(t[2..], c) else [t[0]] + Marked(t[1..], c)
  }

  lemma {:induction false} MarkedFills(t: string, c: char)
    requires c != '\n'
    ensures Fills(t, Marked(t, c))
    decreases |t|
  {
    if t == "" {
    } else if StartsWithHole(t) {
      MarkedFills(t[2..], c);
      var s := Marked(t, c);
      assert s[..1] == [c] && s[1..] == Marked(t[2..], c);
      assert OneLine(s[..1]);
    } else {
      MarkedFills(t[1..], c);
      assert Marked(t, c)[1..] == Marked(t[1..], c);
    }
  }

  /** A cut of the marked text is a cut of the text. */
  lemma {:induction false} MarkedCut(t: string, c: char, k: nat) returns (m: nat)
    requires k <= |Marked(t, c)|
    ensures m <= |t| && Marked(t[m..], c) == Marked(t, c)[k..] && (k > 0 ==> m > 0)
    ensures OneLine(Marked(t, c)[..k]) ==> OneLine(t[..m])
    decreases |t|
  {
    if k == 0 {
      m := 0;
    } else if StartsWithHole(t) {
      var n := MarkedCut(t[2..], c, k - 1);
      m := n + 2;
      assert t[2..][n..] == t[m..] && t[..2] + t[2..] == t && OneLine(t[..2]);
      OneLineStep([c], Marked(t[2..], c), k - 1, t[..2], t[2..], n);
    } else {
      var n := MarkedCut(t[1..], c, k - 1);
      m := n + 1;
      assert t[1..][n..] == t[m..] && [t[0]] + t[1..] == t;
      OneLineStep([t[0]], Marked(t[1..], c), k - 1, [t[0]], t[1..], n);
    }
  }

  /** A segment filled by b marked with a character of its own is filled by b. */
  lemma {:induction false} FillsUnmarked(a: string, b: string, c: char)
    requires c !in a && Fills(a, Marked(b, c))
    ensures Fills(a, b)
    decreases |a|
  {
    var s := Marked(b, c);
    if a == "" {
    } else if StartsWithHole(a) {
      var k :| 0 < k <= |s| && OneLine(s[..k]) && Fills(a[2..], s[k..]);
      var m := MarkedCut(b, c, k);
      assert c !in a[2..] by { forall d | d in a[2..] ensures d in a {} }
      FillsUnmarked(a[2..], b[m..], c);
    } else {
      assert a[0] in a;
      assert c !in a[1..] by { forall d | d in a[1..] ensures d in a {} }
      assert s[1..] == Marked(b[1..], c);
      FillsUnmarked(a[1..], b[1..], c);
    }
  }

  /** Every segment b describes, a describes. */
  ghost predicate Subsumes(a: string, b: string) {
    forall s :: Fills(b, s) ==> Fills(a, s)
  }

  /** SUBSUMPTION EXACT.  The regex of a matches the text of b exactly when a describes every segment
      b describes. */
  lemma MatchIsSubsumption(a: string, b: string, c: char)
    requires Clean(a) && NoneAdjacent(a) && Clean(b) && c !in a && c != '\n'
    ensures Fills(a, b) <==> Subsumes(a, b)
  {
    if Fills(a, b) {
      forall s | Fills(b, s) ensures Fills(a, s) { FillsThrough(a, b, s); }
    }
    MarkedFills(b, c);
    if Subsumes(a, b) { FillsUnmarked(a, b, c); }
  }

  // -- paths -----------------------------------------------------------------------------------------

  lemma PathMatchSymmetric(spec: seq<string>, tool: seq<string>)
    ensures PathMatch(spec, tool) == PathMatch(tool, spec)
  {
    forall i | 0 <= i < |spec| && |spec| == |tool| ensures SegmentMatch(spec[i], tool[i]) == SegmentMatch(tool[i], spec[i]) {}
  }

  ghost predicate Describes(path: seq<string>, request: seq<string>) {
    |request| == |path| && forall i :: 0 <= i < |path| ==> Fills(path[i], request[i])
  }

  predicate Regular(path: seq<string>) {
    forall t | t in path :: Clean(t) && NoneAdjacent(t)
  }

  /** The request that fills every segment of the narrower side. */
  function Shared(spec: seq<string>, tool: seq<string>): seq<string>
    requires |spec| == |tool|
  {
    seq(|spec|, i requires 0 <= i < |spec| =>
      if HasHole(tool[i]) && Fills(tool[i], spec[i]) then Marked(spec[i], 'x') else Marked(tool[i], 'x'))
  }

  /** A MATCH IS A SHARED REQUEST.  Some concrete path instantiates both the documented path and the
      tool's template. */
  lemma MatchSharesRequest(spec: seq<string>, tool: seq<string>)
    requires Regular(spec) && Regular(tool) && PathMatch(spec, tool)
    ensures Describes(spec, Shared(spec, tool)) && Describes(tool, Shared(spec, tool))
  {
    forall i | 0 <= i < |spec| ensures Fills(spec[i], Shared(spec, tool)[i]) && Fills(tool[i], Shared(spec, tool)[i]) {
      assert SegmentMatch(spec[i], tool[i]) && spec[i] in spec && tool[i] in tool;
      MarkedFills(spec[i], 'x');
      MarkedFills(tool[i], 'x');
      if HasHole(tool[i]) && Fills(tool[i], spec[i]) {
        FillsThrough(tool[i], spec[i], Marked(spec[i], 'x'));
      } else if spec[i] != tool[i] {
        FillsThrough(spec[i], tool[i], Marked(tool[i], 'x'));
      }
    }
  }

  // -- adjacent placeholders -------------------------------------------------------------------------

  lemma {:induction false} FillsItself(t: string)
    ensures Fills(t, t)
    decreases |t|
  {
    if t == "" {
    } else if StartsWithHole(t) {
      FillsItself(t[2..]);
      assert OneLine(t[..2]);
    } else {
      FillsItself(t[1..]);
    }
  }

  /** t with one placeholder of its first adjacent pair dropped. */
  function OneDropped(t: string): string
    requires !NoneAdjacent(t)
    decreases |t|
  {
    if !StartsWithHole(t) then [t[0]] + OneDropped(t[1..])
    else if StartsWithHole(t[2..]) then t[2..]
    else HOLE + OneDropped(t[2..])
  }

  /** The pair's regex matches the one placeholder that is left, brace by brace. */
  lemma {:induction false} FillsDropped(t: string)
    requires Clean(t) && !NoneAdjacent(t)
    ensures Clean(OneDropped(t)) && Fills(t, OneDropped(t))
    ensures forall c :: |Marked(OneDropped(t), c)| + 1 == |Marked(t, c)|
    decreases |t|
  {
    var d := OneDropped(t);
    if !StartsWithHole(t) {
      FillsDropped(t[1..]);
      assert d[1..] == OneDropped(t[1..]) && !StartsWithHole(d);
    } else if StartsWithHole(t[2..]) {
      FillsItself(t[2..][2..]);
      assert OneLine(d[..1]) && OneLine(d[1..][..1]) && d[1..][1..] == t[2..][2..];
      HoleFills(t[2..], d[1..], 1);
      HoleFills(t, d, 1);
    } else {
      FillsDropped(t[2..]);
      assert d[2..] == OneDropped(t[2..]) && OneLine(d[..2]);
      HoleFills(t, d, 2);
    }
  }

  /** No filling is shorter than one character per placeholder. */
  lemma {:induction false} FillsLength(t: string, s: string, c: char)
    requires Fills(t, s)
    ensures |s| >= |Marked(t, c)|
    decreases |t|
  {
    if t == "" {
    } else if StartsWithHole(t) {
      var k :| 0 < k <= |s| && OneLine(s[..k]) && Fills(t[2..], s[k..]);
      FillsLength(t[2..], s[k..], c);
    } else {
      FillsLength(t[1..], s[1..], c);
    }
  }

  /** ADJACENCY IS THE CONDITION.  Every clean text the regex of a clean segment matches is subsumed by it
      if and only if no two of its placeholders are adjacent. */
  lemma AdjacentNotSubsumed(a: string)
    requires Clean(a)
    ensures NoneAdjacent(a) <==> forall b :: Clean(b) && Fills(a, b) ==> Subsumes(a, b)
  {
    if NoneAdjacent(a) {
      forall b, s | Clean(b) && Fills(a, b) && Fills(b, s) ensures Fills(a, s) { FillsThrough(a, b, s); }
    } else {
      var b := OneDropped(a);
      FillsDropped(a);
      MarkedFills(b, 'x');
      if Fills(a, Marked(b, 'x')) { FillsLength(a, Marked(b, 'x'), 'x'); }
      assert !Subsumes(a, b);
    }
  }

  // -- shared requests without a match ---------------------------------------------------------------

  /** A literal character of a text is in every filling of it. */
  lemma {:induction false} LiteralFilled(t: string, s: string, c: char)
    requires Fills(t, s) && c in t && !IsBrace(c)
    ensures c in s
    decreases |t|
  {
    if StartsWithHole(t) {
      var k :| 0 < k <= |s| && OneLine(s[..k]) && Fills(t[2..], s[k..]);
      assert t == [t[0], t[1]] + t[2..];
      LiteralFilled(t[2..], s[k..], c);
    } else if t[0] != c {
      assert t == [t[0]] + t[1..];
      LiteralFilled(t[1..], s[1..], c);
    }
  }

  /** What a one-line text fills is on one line, and not empty if it is not. */
  lemma {:induction false} FilledByLine(t: string, s: string)
    requires Fills(t, s) && OneLine(s)
    ensures OneLine(t) && (s != "" ==> t != "")
    decreases |t|
  {
    if t == "" {
    } else if StartsWithHole(t) {
      var k :| 0 < k <= |s| && OneLine(s[..k]) && Fills(t[2..], s[k..]);
      FilledByLine(t[2..], s[k..]);
      assert t == [t[0], t[1]] + t[2..];
    } else {
      FilledByLine(t[1..], s[1..]);
      assert t == [t[0]] + t[1..];
    }
  }

  /** Without a placeholder a segment describes only itself. */
  lemma {:induction false} FillsLiteral(t: string, s: string)
    requires !HasHole(t)
    ensures Fills(t, s) <==> s == t
    decreases |t|
  {
    if t == "" {
    } else {
      if s != "" { FillsLiteral(t[1..], s[1..]); }
      assert s != "" ==> s == [s[0]] + s[1..];
    }
  }

  lemma {:induction false} MarkedHas(t: string, c: char)
    requires OneLine(t) && c != '\n'
    ensures OneLine(Marked(t, c)) && (HasHole(t) ==> c in Marked(t, c)) && (t != "" ==> Marked(t, c) != "")
    decreases |t|
  {
    if t == "" {
    } else if StartsWithHole(t) {
      MarkedHas(t[2..], c);
    } else {
      MarkedHas(t[1..], c);
    }
  }

  /** The one placeholder describes every text on one line but the empty one. */
  lemma AnyFills(s: string)
    ensures Fills("{}", s) <==> s != "" && OneLine(s)
  {
    assert "{}"[2..] == "";
    if Fills("{}", s) {
      var k :| 0 < k <= |s| && OneLine(s[..k]) && Fills("", s[k..]);
      assert s[..k] == s;
    }
    if s != "" && OneLine(s) { assert s[..|s|] == s && s[|s|..] == ""; }
  }

  /** Some request fits both segments. */
  ghost predicate Overlap(a: string, b: string) {
    exists s :: Fills(a, s) && Fills(b, s)
  }

  /** A segment without a placeholder, or that is nothing else, matches what it shares a request with. */
  lemma SimpleMatches(a: string, b: string, s: string)
    requires !HasHole(a) || a == "{}"
    requires Fills(a, s) && Fills(b, s)
    ensures SegmentMatch(a, b)
  {
    if !HasHole(a) {
      FillsLiteral(a, s);
      if !HasHole(b) { FillsLiteral(b, s); }
    } else {
      AnyFills(s);
      FilledByLine(b, s);
      AnyFills(b);
    }
  }

  /** u, the mark and w, with a placeholder for each of u and w that is not empty. */
  function Around(u: string, z: char, w: string): string {
    (if u == "" then "" else HOLE) + [z] + if w == "" then "" else HOLE
  }

  lemma AroundFills(u: string, z: char, w: string)
    requires !IsBrace(z) && OneLine(u) && OneLine(w)
    ensures Clean(Around(u, z, w)) && NoneAdjacent(Around(u, z, w)) && Fills(Around(u, z, w), u + [z] + w)
  {
    var back: string := [z] + if w == "" then "" else HOLE;
    assert back[1..] == if w == "" then "" else HOLE;
    assert HOLE[2..] == "" && HOLE[0] == '{' && z != '{';
    AnyFills(w);
    assert ([z] + w)[1..] == w;
    assert Fills(back, [z] + w);
    var t, s := Around(u, z, w), u + [z] + w;
    if u == "" {
      assert t == back && s == [z] + w;
    } else {
      assert t == HOLE + back && t[2..] == back;
      assert s[..|u|] == u && s[|u|..] == [z] + w;
      HoleFills(t, s, |u|);
    }
  }

  /** A segment that starts with a placeholder describes no text that is the mark and a placeholder, if
      a literal follows its own. */
  lemma FrontUnmatched(a: string, z: char)
    requires Clean(a) && NoneAdjacent(a) && StartsWithHole(a) && a != "{}"
    ensures !Fills(a, [z] + HOLE)
  {
    var b, r := [z] + HOLE, a[2..];
    assert a == HOLE + r && r != "" && !IsBrace(r[0]);
    forall k | 0 < k <= |b| ensures !Fills(r, b[k..]) {
      assert b[k..] != "" ==> b[k..][0] == b[k] && IsBrace(b[k]);
    }
  }

  /** Where a marked segment has its mark: first, if a placeholder is first. */
  lemma MarkPlace(a: string, z: char) returns (i: nat)
    requires OneLine(a) && z != '\n' && z !in a && HasHole(a)
    ensures i < |Marked(a, z)| && Marked(a, z)[i] == z && (StartsWithHole(a) <==> i == 0)
    ensures StartsWithHole(a) && a != "{}" ==> i + 1 < |Marked(a, z)|
  {
    MarkedHas(a, z);
    if StartsWithHole(a) {
      i := 0;
      MarkedHas(a[2..], z);
      assert a == HOLE + a[2..];
    } else {
      i :| 0 <= i < |Marked(a, z)| && Marked(a, z)[i] == z;
      assert a[0] in a && Marked(a, z)[0] == a[0];
    }
  }

  /** A segment with a placeholder and something else shares a request with one it does not match. */
  lemma MixedOverlaps(a: string, z: char) returns (b: string)
    requires Clean(a) && OneLine(a) && NoneAdjacent(a) && HasHole(a) && a != "{}"
    requires z !in a && z != '\n' && !IsBrace(z)
    ensures Clean(b) && NoneAdjacent(b) && Overlap(a, b) && !SegmentMatch(a, b)
  {
    var s := Marked(a, z);
    MarkedFills(a, z);
    MarkedHas(a, z);
    var i := MarkPlace(a, z);
    var u, w := s[..i], s[i + 1..];
    assert s == u + [z] + w;
    AroundFills(u, z, w);
    b := Around(u, z, w);
    assert Fills(a, s) && Fills(b, s);
    assert z in b;
    if Fills(b, a) { LiteralFilled(b, a, z); }
    hide Fills, Clean, Marked, NoneAdjacent, HasHole;
    if StartsWithHole(a) {
      assert b == [z] + HOLE;
      FrontUnmatched(a, z);
    } else {
      assert b[0] == '{';
      LiteralStart(a, b);
    }
  }

  lemma LiteralStart(a: string, b: string)
    requires Clean(a) && a != "" && !StartsWithHole(a) && b != "" && b[0] == '{'
    ensures !Fills(a, b) && a != b
  {}

  /** OVERLAP IS A MATCH, for which segments.  A segment matches every segment it shares a request with
      if and only if it has no placeholder or is nothing but one; z is any character that does not
      occur in it. */
  lemma OverlapWithoutMatch(a: string, z: char)
    requires Clean(a) && OneLine(a) && NoneAdjacent(a) && z !in a && z != '\n' && !IsBrace(z)
    ensures !HasHole(a) || a == "{}"
      <==> forall b :: Clean(b) && NoneAdjacent(b) && Overlap(a, b) ==> SegmentMatch(a, b)
  {
    if !HasHole(a) || a == "{}" {
      forall b | Clean(b) && NoneAdjacent(b) && Overlap(a, b) ensures SegmentMatch(a, b) {
        var s :| Fills(a, s) && Fills(b, s);
        SimpleMatches(a, b, s);
      }
    } else {
      var b := MixedOverlaps(a, z);
    }
  }

  // -- paths, exactly --------------------------------------------------------------------------------

  /** A MATCH, EXACTLY.  Two regular paths match if and only if they have as many segments and, segment
      by segment, one describes every text the other does. */
  lemma PathMatchMeans(spec: seq<string>, tool: seq<string>, z: char)
    requires Regular(spec) && Regular(tool) && z != '\n'
    requires forall t | t in spec || t in tool :: z !in t
    ensures PathMatch(spec, tool)
      <==> |spec| == |tool|
           && forall i :: 0 <= i < |spec| ==> Subsumes(spec[i], tool[i]) || Subsumes(tool[i], spec[i])
  {
    hide Subsumes, SegmentMatch, Clean, NoneAdjacent;
    forall i | 0 <= i < |spec| && |spec| == |tool|
      ensures SegmentMatch(spec[i], tool[i]) <==> Subsumes(spec[i], tool[i]) || Subsumes(tool[i], spec[i])
    {
      assert spec[i] in spec && tool[i] in tool;
      SegmentMatchMeans(spec[i], tool[i], z);
    }
  }

  lemma SegmentMatchMeans(a: string, b: string, z: char)
    requires Clean(a) && NoneAdjacent(a) && Clean(b) && NoneAdjacent(b) && z !in a && z !in b && z != '\n'
    ensures SegmentMatch(a, b) <==> Subsumes(a, b) || Subsumes(b, a)
  {
    MatchIsSubsumption(a, b, z);
    MatchIsSubsumption(b, a, z);
    hide Subsumes, Fills;
    if !HasHole(a) { FillsLiteral(a, b); }
    if !HasHole(b) { FillsLiteral(b, a); }
    if a == b { FillsItself(a); }
  }
}
