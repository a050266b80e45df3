/** The url under which POST is stored on a split row: a pattern meant to be found in every path
    except those whose last segment is the word `delete`, against a semantics of patterns. */
module NotDelete {
  import opened Options

  /** Patterns; End is `$`: the end of the text, or just before its final newline. */
  datatype Regex =
    | Class(negated: bool, chars: set<char>)
    | Cat(first: Regex, second: Regex)
    | Alt(left: Regex, right: Regex)
    | Repeat(item: Regex, min: nat, max: Option<nat>)
    | End

  /** A way to match: where the parts end, and the ways of the parts. */
  datatype Way = Way(at: nat, ways: seq<Way>)

  /** r matches text[i..j] in the way w. */
  ghost predicate Fits(r: Regex, text: string, i: nat, j: nat, w: Way)
    decreases w, r
  {
    match r
    case Class(negated, chars) => i < |text| && j == i + 1 && (text[i] in chars) != negated
    case Cat(a, b) => |w.ways| == 2 && Fits(a, text, i, w.at, w.ways[0]) && Fits(b, text, w.at, j, w.ways[1])
    case Alt(a, b) => Fits(a, text, i, j, w) || Fits(b, text, i, j, w)
    case Repeat(a, min, max) =>
      min <= |w.ways| && (max.None? || |w.ways| <= max.value) && InARow(a, text, i, j, w.ways)
    case End => i == j && (i == |text| || (i + 1 == |text| && text[i] == '\n'))
  }

  /** One match of r after the other. */
  ghost predicate InARow(r: Regex, text: string, i: nat, j: nat, ws: seq<Way>)
    decreases ws, r
  {
    if ws == [] then i == j
    else |ws[0].ways| == 1 && Fits(r, text, i, ws[0].at, ws[0].ways[0]) && InARow(r, text, ws[0].at, j, ws[1..])
  }

  /** r matches text[i..j], in the context of text. */
  ghost predicate Matches(r: Regex, text: string, i: nat, j: nat) {
    exists w :: Fits(r, text, i, j, w)
  }

  /** re.search: a match anywhere. */
  ghost predicate Found(r: Regex, text: string) {
    exists i: nat, j: nat :: Matches(r, text, i, j)
  }

  const LEAF := Way(0, [])

  lemma CatMeans(a: Regex, b: Regex, text: string, i: nat, j: nat)
    ensures Matches(Cat(a, b), text, i, j) <==> exists k: nat :: Matches(a, text, i, k) && Matches(b, text, k, j)
  {
    if w :| Fits(Cat(a, b), text, i, j, w) {
      assert Fits(a, text, i, w.at, w.ways[0]) && Fits(b, text, w.at, j, w.ways[1]);
      assert Matches(a, text, i, w.at) && Matches(b, text, w.at, j);
    }
    if k: nat :| Matches(a, text, i, k) && Matches(b, text, k, j) {
      var u :| Fits(a, text, i, k, u);
      var v :| Fits(b, text, k, j, v);
      assert Fits(Cat(a, b), text, i, j, Way(k, [u, v]));
    }
  }

  lemma AltMeans(a: Regex, b: Regex, text: string, i: nat, j: nat)
    ensures Matches(Alt(a, b), text, i, j) <==> Matches(a, text, i, j) || Matches(b, text, i, j)
  {
    if w :| Fits(Alt(a, b), text, i, j, w) {
      assert Fits(a, text, i, j, w) || Fits(b, text, i, j, w);
    }
    if w :| Fits(a, text, i, j, w) { assert Fits(Alt(a, b), text, i, j, w); }
    if w :| Fits(b, text, i, j, w) { assert Fits(Alt(a, b), text, i, j, w); }
  }

  lemma ClassMeans(r: Regex, text: string, i: nat, j: nat)
    requires r.Class?
    ensures Matches(r, text, i, j) <==> i < |text| && j == i + 1 && (text[i] in r.chars) != r.negated
  {
    if i < |text| && j == i + 1 && (text[i] in r.chars) != r.negated { assert Fits(r, text, i, j, LEAF); }
  }

  lemma EndMeans(text: string, i: nat, j: nat)
    ensures Matches(End, text, i, j) <==> i == j && (i == |text| || (i + 1 == |text| && text[i] == '\n'))
  {
    if i == j && (i == |text| || (i + 1 == |text| && text[i] == '\n')) { assert Fits(End, text, i, j, LEAF); }
  }

  // -- the pattern -----------------------------------------------------------------------------------

  const SLASH: Regex := Class(false, {'/'})
  const NO_SLASH: Regex := Class(true, {'/'})
  const ANY: Regex := Class(true, {'\n'})

  function Not(c: char): Regex {
    Class(true, {c})
  }

  function Exactly(r: Regex, n: nat): Regex {
    Repeat(r, n, Some(n))
  }

  const WORD := "delete"

  /** A slash and six characters, the one at place i not being `delete`'s. */
  function Differs(i: nat): Regex
    requires i < 6
  {
    Cat(SLASH, Cat(Exactly(NO_SLASH, i), Cat(Not(WORD[i]), Exactly(NO_SLASH, 5 - i))))
  }

  function SomeDiffers(i: nat): Regex
    requires i < 6
    decreases 6 - i
  {
    if i == 5 then Differs(5) else Alt(Differs(i), SomeDiffers(i + 1))
  }

  const SHORT: Regex := Cat(SLASH, Repeat(NO_SLASH, 1, Some(5)))
  const LONG: Regex := Cat(SLASH, Repeat(NO_SLASH, 7, None))
  const SEGMENT: Regex := Alt(SHORT, Alt(LONG, SomeDiffers(0)))
  const TAIL: Regex := Cat(Repeat(SLASH, 0, Some(1)), End)

  /** NOT_DELETE_PATTERN: `.+`, one of eight segments, an optional slash, the end. */
  const PATTERN: Regex := Cat(Repeat(ANY, 1, None), Cat(SEGMENT, TAIL))

  // -- runs of one class -----------------------------------------------------------------------------

  ghost predicate All(r: Regex, text: string, i: nat, j: nat)
    requires r.Class? && i <= j <= |text|
  {
    forall k | i <= k < j :: (text[k] in r.chars) != r.negated
  }

  lemma {:induction false} RowIsRun(r: Regex, text: string, i: nat, j: nat, ws: seq<Way>)
    requires r.Class? && i <= |text| && InARow(r, text, i, j, ws)
    ensures j == i + |ws| <= |text| && All(r, text, i, j)
    decreases |ws|
  {
    if ws == [] {
    } else {
      RowIsRun(r, text, i + 1, j, ws[1..]);
    }
  }

  lemma {:induction false} RunIsRow(r: Regex, text: string, i: nat, j: nat) returns (ws: seq<Way>)
    requires r.Class? && i <= j <= |text| && All(r, text, i, j)
    ensures |ws| == j - i && InARow(r, text, i, j, ws)
    decreases j - i
  {
    ws := [];
    if i < j {
      assert (text[i] in r.chars) != r.negated;
      var rest := RunIsRow(r, text, i + 1, j);
      ws := [Way(i + 1, [LEAF])] + rest;
      assert ws[1..] == rest;
    }
  }

  lemma RepeatIsRun(r: Regex, min: nat, max: Option<nat>, text: string, i: nat, j: nat)
    requires r.Class? && i <= |text|
    ensures Matches(Repeat(r, min, max), text, i, j)
      <==> i + min <= j <= |text| && (max.None? || j <= i + max.value) && All(r, text, i, j)
  {
    if w :| Fits(Repeat(r, min, max), text, i, j, w) {
      RowIsRun(r, text, i, j, w.ways);
    }
    if i + min <= j <= |text| && (max.None? || j <= i + max.value) && All(r, text, i, j) {
      var ws := RunIsRow(r, text, i, j);
      assert Fits(Repeat(r, min, max), text, i, j, Way(0, ws));
    }
  }

  // -- what each part means --------------------------------------------------------------------------

  lemma SegmentMeans(min: nat, max: Option<nat>, text: string, i: nat, j: nat)
    ensures Matches(Cat(SLASH, Repeat(NO_SLASH, min, max)), text, i, j)
      <==> i < |text| && text[i] == '/' && i + 1 + min <= j <= |text| && (max.None? || j <= i + 1 + max.value)
           && All(NO_SLASH, text, i + 1, j)
  {
    SlashThen(Repeat(NO_SLASH, min, max), text, i, j);
    if i < |text| { RepeatIsRun(NO_SLASH, min, max, text, i + 1, j); }
  }

  lemma SlashThen(r: Regex, text: string, i: nat, j: nat)
    ensures Matches(Cat(SLASH, r), text, i, j) <==> i < |text| && text[i] == '/' && Matches(r, text, i + 1, j)
  {
    CatMeans(SLASH, r, text, i, j);
    hide Matches;
    forall k: nat ensures Matches(SLASH, text, i, k) <==> i < |text| && k == i + 1 && text[i] == '/' {
      ClassMeans(SLASH, text, i, k);
    }
  }

  /** n characters of a class, then r. */
  lemma RunThen(c: Regex, n: nat, r: Regex, text: string, i: nat, j: nat)
    requires c.Class? && i <= |text|
    ensures Matches(Cat(Exactly(c, n), r), text, i, j)
      <==> i + n <= |text| && All(c, text, i, i + n) && Matches(r, text, i + n, j)
  {
    CatMeans(Exactly(c, n), r, text, i, j);
    hide Matches;
    forall k: nat ensures Matches(Exactly(c, n), text, i, k) <==> k == i + n <= |text| && All(c, text, i, k) {
      RepeatIsRun(c, n, Some(n), text, i, k);
    }
    if i + n <= |text| && All(c, text, i, i + n) && Matches(r, text, i + n, j) {
      assert Matches(Exactly(c, n), text, i, i + n);
    }
  }

  lemma DiffersMeans(p: nat, text: string, i: nat, j: nat)
    requires p < 6
    ensures Matches(Differs(p), text, i, j)
      <==> j == i + 7 <= |text| && text[i] == '/' && text[i + 1 + p] != WORD[p]
           && All(NO_SLASH, text, i + 1, i + 1 + p) && All(NO_SLASH, text, i + 2 + p, j)
  {
    var off, after := Not(WORD[p]), Exactly(NO_SLASH, 5 - p);
    SlashThen(Cat(Exactly(NO_SLASH, p), Cat(off, after)), text, i, j);
    if i < |text| {
      RunThen(NO_SLASH, p, Cat(off, after), text, i + 1, j);
      var at := i + 1 + p;
      CatMeans(off, after, text, at, j);
      forall k: nat ensures Matches(off, text, at, k) <==> at < |text| && k == at + 1 && text[at] != WORD[p] {
        ClassMeans(off, text, at, k);
      }
      if at < |text| { RepeatIsRun(NO_SLASH, 5 - p, Some(5 - p), text, at + 1, j); }
    }
  }

  lemma {:induction false} SomeDiffersMeans(p: nat, text: string, i: nat, j: nat)
    requires p < 6
    ensures Matches(SomeDiffers(p), text, i, j) <==> exists q :: p <= q < 6 && Matches(Differs(q), text, i, j)
    decreases 6 - p
  {
    if p < 5 {
      AltMeans(Differs(p), SomeDiffers(p + 1), text, i, j);
      SomeDiffersMeans(p + 1, text, i, j);
    }
    hide Matches;
  }

  /** One of the eight alternatives matches text[i..j]. */
  ghost predicate NamedSegment(text: string, i: nat, j: nat) {
    || Matches(SHORT, text, i, j)
    || Matches(LONG, text, i, j)
    || exists q :: 0 <= q < 6 && Matches(Differs(q), text, i, j)
  }

  /** The pattern is found where an alternative follows a character other than a newline and is
      followed by at most one slash and the end. */
  lemma FoundMeans(text: string)
    ensures Found(PATTERN, text)
      <==> exists i: nat, j: nat :: 0 < i <= |text| && text[i - 1] != '\n' && NamedSegment(text, i, j) && TailAt(text, j)
  {
    if s: nat, e: nat :| Matches(PATTERN, text, s, e) { MatchNames(text, s, e); }
    if i: nat, j: nat :| 0 < i <= |text| && text[i - 1] != '\n' && NamedSegment(text, i, j) && TailAt(text, j) {
      var e: nat :| Matches(TAIL, text, j, e);
      SegmentAlternatives(text, i, j);
      CatMeans(SEGMENT, TAIL, text, i, e);
      RepeatIsRun(ANY, 1, None, text, i - 1, i);
      CatMeans(Repeat(ANY, 1, None), Cat(SEGMENT, TAIL), text, i - 1, e);
      assert Matches(PATTERN, text, i - 1, e);
    }
  }

  lemma SegmentAlternatives(text: string, i: nat, j: nat)
    ensures Matches(SEGMENT, text, i, j) <==> NamedSegment(text, i, j)
  {
    AltMeans(SHORT, Alt(LONG, SomeDiffers(0)), text, i, j);
    AltMeans(LONG, SomeDiffers(0), text, i, j);
    SomeDiffersMeans(0, text, i, j);
    hide Matches;
  }

  lemma MatchNames(text: string, s: nat, e: nat)
    requires Matches(PATTERN, text, s, e)
    ensures exists i: nat, j: nat :: 0 < i <= |text| && text[i - 1] != '\n' && NamedSegment(text, i, j) && TailAt(text, j)
  {
    var lead := Repeat(ANY, 1, None);
    CatMeans(lead, Cat(SEGMENT, TAIL), text, s, e);
    var i: nat :| Matches(lead, text, s, i) && Matches(Cat(SEGMENT, TAIL), text, i, e);
    CatMeans(SEGMENT, TAIL, text, i, e);
    var j: nat :| Matches(SEGMENT, text, i, j) && Matches(TAIL, text, j, e);
    SegmentAlternatives(text, i, j);
    var w :| Fits(lead, text, s, i, w);
    assert InARow(ANY, text, s, i, w.ways) && w.ways != [];
    assert Fits(ANY, text, s, w.ways[0].at, w.ways[0].ways[0]);
    RepeatIsRun(ANY, 1, None, text, s, i);
    hide Matches, NamedSegment;
    assert (text[i - 1] in ANY.chars) != ANY.negated;
    assert TailAt(text, j);
  }

  ghost predicate TailAt(text: string, j: nat) {
    exists e: nat :: Matches(TAIL, text, j, e)
  }

  /** At most one slash and then the end, a final newline not counting. */
  lemma TailMeans(text: string, j: nat)
    requires j <= |text|
    ensures TailAt(text, j) <==> text[j..] == "" || text[j..] == "/" || text[j..] == "\n" || text[j..] == "/\n"
  {
    var opt := Repeat(SLASH, 0, Some(1));
    forall k: nat ensures Matches(opt, text, j, k) <==> j <= k <= |text| && k <= j + 1 && All(SLASH, text, j, k) {
      RepeatIsRun(SLASH, 0, Some(1), text, j, k);
    }
    forall k: nat, e: nat ensures Matches(End, text, k, e) <==> k == e && (k == |text| || (k + 1 == |text| && text[k] == '\n')) {
      EndMeans(text, k, e);
    }
    forall e: nat ensures Matches(TAIL, text, j, e) <==> exists k: nat :: Matches(opt, text, j, k) && Matches(End, text, k, e) {
      CatMeans(opt, End, text, j, e);
    }
    hide Matches;
    if TailAt(text, j) {
      var e: nat :| Matches(TAIL, text, j, e);
      var k: nat :| Matches(opt, text, j, k) && Matches(End, text, k, e);
      if k == j {
        assert text[j..] == if j == |text| then "" else [text[j]];
      } else {
        assert text[j] in SLASH.chars;
        assert text[j..] == ['/'] + text[j + 1..];
        assert text[j + 1..] == if k == |text| then "" else [text[k]];
      }
    }
    if text[j..] == "" || text[j..] == "\n" {
      if text[j..] == "\n" { assert text[j] == text[j..][0]; }
      assert Matches(opt, text, j, j) && Matches(End, text, j, j);
      assert Matches(TAIL, text, j, j);
    }
    if text[j..] == "/" || text[j..] == "/\n" {
      assert text[j] == text[j..][0];
      if text[j..] == "/\n" { assert text[j + 1] == text[j..][1]; }
      assert |text| == j + |text[j..]|;
      assert All(SLASH, text, j, j + 1);
      assert Matches(opt, text, j, j + 1) && Matches(End, text, j + 1, j + 1);
      assert Matches(TAIL, text, j, j + 1);
    }
  }

  // -- the theorem -----------------------------------------------------------------------------------

  /** A path of at least two segments: what precedes the last slash, the last segment, and possibly
      a trailing slash. */
  ghost predicate Splits(path: string, pre: string, seg: string, tail: string) {
    && path == pre + "/" + seg + tail
    && pre != "" && pre[|pre| - 1] != '\n'
    && seg != "" && '/' !in seg
    && (tail == "" || tail == "/")
  }

  /** FOUND UNLESS `delete`.  The pattern is found in a path exactly when its last segment is not the
      word. */
  lemma FoundUnlessDelete(path: string, pre: string, seg: string, tail: string)
    requires Splits(path, pre, seg, tail)
    ensures Found(PATTERN, path) <==> seg != "delete"
  {
    FoundMeans(path);
    hide Found, NamedSegment, TailAt;
    var i, j := |pre|, |pre| + 1 + |seg|;
    assert path[i - 1] == pre[i - 1] && path[j..] == tail;
    if seg != WORD {
      OtherWordNamed(path, pre, seg, tail);
      TailMeans(path, j);
    } else {
      forall a: nat, b: nat | TailAt(path, b) && b <= |path| ensures !NamedSegment(path, a, b) {
        DeleteEndsAt(path, pre, tail, b);
        DeleteNotNamed(path, pre, tail, a, b);
      }
      forall a: nat, b: nat | NamedSegment(path, a, b) ensures b <= |path| { NamedEnds(path, a, b); }
    }
  }

  lemma NamedEnds(path: string, a: nat, b: nat)
    requires NamedSegment(path, a, b)
    ensures b <= |path|
  {
    SegmentMeans(1, Some(5), path, a, b);
    SegmentMeans(7, None, path, a, b);
    if q :| 0 <= q < 6 && Matches(Differs(q), path, a, b) { DiffersMeans(q, path, a, b); }
  }

  lemma OtherWordNamed(path: string, pre: string, seg: string, tail: string)
    requires Splits(path, pre, seg, tail) && seg != WORD
    ensures NamedSegment(path, |pre|, |pre| + 1 + |seg|)
  {
    var i, j := |pre|, |pre| + 1 + |seg|;
    assert path[i] == '/' && path[i + 1..j] == seg;
    forall k | i < k < j ensures path[k] == seg[k - i - 1] && path[k] != '/' {
      assert seg[k - i - 1] in seg;
    }
    SegmentMeans(1, Some(5), path, i, j);
    SegmentMeans(7, None, path, i, j);
    if |seg| == 6 {
      var q :| 0 <= q < 6 && seg[q] != WORD[q];
      DiffersMeans(q, path, i, j);
    }
  }

  /** The word is followed by the end, or by its slash and the end. */
  lemma DeleteEndsAt(path: string, pre: string, tail: string, b: nat)
    requires Splits(path, pre, WORD, tail) && b <= |path| && TailAt(path, b)
    ensures b == |pre| + 7 || (tail == "/" && b == |pre| + 8)
  {
    TailMeans(path, b);
    var last := path[|path| - 1];
    assert last == if tail == "/" then '/' else WORD[5];
    assert path[b..] != "" ==> path[b..][|path| - b - 1] == last;
  }

  lemma DeleteNotNamed(path: string, pre: string, tail: string, a: nat, b: nat)
    requires Splits(path, pre, WORD, tail) && (b == |pre| + 7 || (tail == "/" && b == |pre| + 8))
    ensures !NamedSegment(path, a, b)
  {
    var n := |pre|;
    assert path[n] == '/' && path[n + 1..n + 7] == WORD;
    assert forall k | 0 <= k < 6 :: path[n + 1 + k] == path[n + 1..n + 7][k] == WORD[k];
    assert tail == "/" ==> path[n + 7] == '/';
    hide Matches, Differs;
    assert !Matches(SHORT, path, a, b) by { SegmentMeans(1, Some(5), path, a, b); }
    assert !Matches(LONG, path, a, b) by { SegmentMeans(7, None, path, a, b); }
    forall q | 0 <= q < 6 ensures !Matches(Differs(q), path, a, b) { DiffersMeans(q, path, a, b); }
  }

  // -- after a newline -------------------------------------------------------------------------------

  /** A segment of five characters in all when the last slash counts as one of them: the place where an
      alternative tells the word apart may hold any character but the word's, a slash too. */
  ghost predicate Crosses(pre: string, seg: string) {
    exists front, mid :: CrossesFrom(pre, seg, front, mid)
  }

  predicate CrossesFrom(pre: string, seg: string, front: string, mid: string) {
    && pre == front + "/" + mid && '/' !in mid && |mid| + |seg| == 5
    && front != "" && front[|front| - 1] != '\n'
  }

  ghost predicate LastSegment(path: string, pre: string, seg: string, tail: string) {
    && path == pre + "/" + seg + tail && pre != "" && (tail == "" || tail == "/")
    && seg != "" && '/' !in seg && seg[|seg| - 1] != '\n'
  }

  /** FOUND EXACTLY.  Whatever character precedes the last slash: the pattern is found in a path when that
      character is no newline and the last segment is not the word, or when an alternative reaches across
      the slash from the segment before; otherwise not. */
  lemma FoundExactly(path: string, pre: string, seg: string, tail: string)
    requires LastSegment(path, pre, seg, tail)
    ensures Found(PATTERN, path) <==> (pre[|pre| - 1] != '\n' && seg != "delete") || Crosses(pre, seg)
  {
    if pre[|pre| - 1] != '\n' {
      FoundUnlessDelete(path, pre, seg, tail);
    } else {
      FoundMeans(path);
      hide Found, NamedSegment, TailAt, CrossesFrom;
      if i: nat, j: nat :| 0 < i <= |path| && path[i - 1] != '\n' && NamedSegment(path, i, j) && TailAt(path, j) {
        NamedEnds(path, i, j);
        NamedAfterNewline(path, pre, seg, tail, i, j);
      }
      if front, mid :| CrossesFrom(pre, seg, front, mid) {
        CrossingNamed(path, pre, seg, tail, front, mid);
      }
    }
  }

  lemma NamedAfterNewline(path: string, pre: string, seg: string, tail: string, i: nat, j: nat)
    requires LastSegment(path, pre, seg, tail) && pre[|pre| - 1] == '\n'
    requires 0 < i <= |path| && path[i - 1] != '\n' && NamedSegment(path, i, j) && j <= |path| && TailAt(path, j)
    ensures i < |pre| && CrossesFrom(pre, seg, pre[..i], pre[i + 1..])
  {
    var n := |pre|;
    NamedStarts(path, i, j);
    TailNearEnd(path, pre, seg, tail, j);
    assert path[n] == '/' && path[n - 1] == '\n' && forall k | n < k <= n + |seg| :: path[k] == seg[k - n - 1] && path[k] in seg;
    hide Matches, Differs, TailAt;
    assert j > i + 1 by { NamedLength(path, i, j); }
    assert i < n;
    assert !Matches(SHORT, path, i, j) by { SegmentMeans(1, Some(5), path, i, j); }
    assert !Matches(LONG, path, i, j) by { SegmentMeans(7, None, path, i, j); }
    var q :| 0 <= q < 6 && Matches(Differs(q), path, i, j);
    DiffersMeans(q, path, i, j);
    assert n == i + 1 + q;
    assert tail == "/" ==> path[|path| - 1] == '/';
    assert j == n + 1 + |seg|;
    var front, mid := pre[..i], pre[i + 1..];
    assert path[..n] == pre;
    forall k | 0 <= k < |mid| ensures mid[k] != '/' {
      assert mid[k] == path[i + 1 + k];
      assert (path[i + 1 + k] in NO_SLASH.chars) != NO_SLASH.negated;
    }
    assert pre == front + "/" + mid && front[i - 1] == path[i - 1];
  }

  /** Up to the tail's slash nothing is left when the pattern ends. */
  lemma TailNearEnd(path: string, pre: string, seg: string, tail: string, j: nat)
    requires LastSegment(path, pre, seg, tail) && j <= |path| && TailAt(path, j)
    ensures j == |pre| + 1 + |seg| || (tail == "/" && j == |path|)
  {
    TailMeans(path, j);
    var last := path[|path| - 1];
    assert last == if tail == "/" then '/' else seg[|seg| - 1];
    assert seg[|seg| - 1] in seg;
    assert path[j..] != "" ==> path[j..][|path| - j - 1] == last;
  }

  lemma NamedLength(path: string, i: nat, j: nat)
    requires NamedSegment(path, i, j)
    ensures j > i + 1
  {
    SegmentMeans(1, Some(5), path, i, j);
    SegmentMeans(7, None, path, i, j);
    if q :| 0 <= q < 6 && Matches(Differs(q), path, i, j) { DiffersMeans(q, path, i, j); }
  }

  lemma CrossingNamed(path: string, pre: string, seg: string, tail: string, front: string, mid: string)
    requires LastSegment(path, pre, seg, tail) && CrossesFrom(pre, seg, front, mid)
    ensures Found(PATTERN, path)
  {
    hide Found, TailAt, Matches, Differs;
    var i, j := |front|, |pre| + 1 + |seg|;
    assert path[i] == '/' && path[i + 1 + |mid|] == '/' && path[i - 1] == front[i - 1];
    forall k | i < k <= i + |mid| ensures path[k] != '/' { assert path[k] == mid[k - i - 1] && mid[k - i - 1] in mid; }
    forall k | |pre| < k < j ensures path[k] != '/' { assert path[k] == seg[k - |pre| - 1] && seg[k - |pre| - 1] in seg; }
    DiffersMeans(|mid|, path, i, j);
    assert path[j..] == tail;
    TailMeans(path, j);
    FoundMeans(path);
    assert NamedSegment(path, i, j);
  }

  lemma NamedStarts(path: string, a: nat, b: nat)
    requires NamedSegment(path, a, b)
    ensures a < |path| && path[a] == '/'
  {
    SegmentMeans(1, Some(5), path, a, b);
    SegmentMeans(7, None, path, a, b);
    if q :| 0 <= q < 6 && Matches(Differs(q), path, a, b) { DiffersMeans(q, path, a, b); }
  }
}
