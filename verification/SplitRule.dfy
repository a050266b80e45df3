/** The not-delete pattern on the paths the generator and the permission check sample: both samples of
    a template fare alike, and a POST is refused exactly when its last segment is the word itself. */
module SplitRule {
  import opened Strings
  import opened RoleCheck
  import opened RoleCompiler
  import NotDelete

  /** A path template of at least two segments on one line, possibly with a trailing slash. */
  ghost predicate SplitsTemplate(t: string, pre: string, seg: string, tail: string) {
    && t == pre + "/" + seg + tail && '\n' !in t
    && pre != "" && seg != "" && '/' !in seg && (tail == "" || tail == "/")
  }

  function Filled(t: string, value: string): string {
    Replaced(t, PLACEHOLDER, value)
  }

  lemma FilledSteps(t: string, value: string)
    ensures PLACEHOLDER <= t ==> Filled(t, value) == value + Filled(t[2..], value)
    ensures t != "" && !(PLACEHOLDER <= t) ==> Filled(t, value) == [t[0]] + Filled(t[1..], value)
    ensures Filled("", value) == ""
  {}

  // -- substitution and slashes ----------------------------------------------------------------------

  /** A slash separates: what precedes it is filled on its own. */
  lemma {:induction false} FilledBeforeSlash(pre: string, rest: string, value: string)
    ensures Filled(pre + "/" + rest, value) == Filled(pre, value) + "/" + Filled(rest, value)
    decreases |pre|
  {
    var t := pre + "/" + rest;
    FilledSteps(pre, value);
    FilledSteps(t, value);
    if pre == "" {
      assert t[0] == '/' && t[1..] == rest;
    } else if PLACEHOLDER <= pre {
      assert t[2..] == pre[2..] + "/" + rest;
      FilledBeforeSlash(pre[2..], rest, value);
    } else {
      assert t[0] == pre[0] && (|pre| == 1 ==> t[1] == '/') && (|pre| > 1 ==> t[1] == pre[1]);
      assert t[1..] == pre[1..] + "/" + rest;
      FilledBeforeSlash(pre[1..], rest, value);
    }
  }

  /** Before the last slash the concrete path has "abc" for every placeholder. */
  lemma {:induction false} ConcreteBeforeSlash(pre: string, rest: string, last: string)
    ensures Concretised(pre + "/" + rest, last) == Filled(pre, "abc") + "/" + Concretised(rest, last)
    decreases |pre|
  {
    hide Replaced;
    var t := pre + "/" + rest;
    FilledSteps(pre, "abc");
    if pre == "" {
      assert t[0] == '/' && t[1..] == rest;
    } else if PLACEHOLDER <= pre {
      assert t[2..] == pre[2..] + "/" + rest;
      assert t[2..][|pre| - 2] == '/';
      ConcreteBeforeSlash(pre[2..], rest, last);
    } else {
      assert t[0] == pre[0] && (|pre| == 1 ==> t[1] == '/') && (|pre| > 1 ==> t[1] == pre[1]);
      assert t[1..] == pre[1..] + "/" + rest;
      ConcreteBeforeSlash(pre[1..], rest, last);
    }
  }

  /** In the last segment it has the value for last segments. */
  lemma {:induction false} ConcreteLast(seg: string, last: string)
    requires '/' !in seg
    ensures Concretised(seg, last) == Filled(seg, last)
    decreases |seg|
  {
    FilledSteps(seg, last);
    if seg == "" {
    } else if PLACEHOLDER <= seg {
      assert '/' !in seg[2..];
      ConcreteLast(seg[2..], last);
    } else {
      assert '/' !in seg[1..];
      ConcreteLast(seg[1..], last);
    }
  }

  predicate HasPlaceholder(t: string) {
    t != "" && (PLACEHOLDER <= t || HasPlaceholder(t[1..]))
  }

  /** Filling brings in the value's characters and no others. */
  lemma {:induction false} FilledChars(t: string, value: string, c: char)
    ensures c !in t && c !in value ==> c !in Filled(t, value)
    ensures HasPlaceholder(t) && c in value ==> c in Filled(t, value)
    ensures !HasPlaceholder(t) ==> Filled(t, value) == t
    ensures t != "" && value != "" ==> Filled(t, value) != ""
    decreases |t|
  {
    FilledSteps(t, value);
    if t == "" {
    } else if PLACEHOLDER <= t {
      FilledChars(t[2..], value, c);
    } else {
      FilledChars(t[1..], value, c);
      assert t == [t[0]] + t[1..];
    }
  }

  const KEY := "a/b=c"

  /** A key with a slash leaves a last segment that contains an equals sign. */
  lemma {:induction false} FilledWithKey(seg: string) returns (front: string, back: string)
    requires '/' !in seg && HasPlaceholder(seg)
    ensures Filled(seg, KEY) == front + "/" + back && front != "" && '/' !in back && '=' in back
    ensures '\n' !in seg ==> '\n' !in front
    decreases |seg|
  {
    FilledSteps(seg, KEY);
    if PLACEHOLDER <= seg {
      if HasPlaceholder(seg[2..]) {
        assert '/' !in seg[2..];
        front, back := FilledWithKey(seg[2..]);
        front := KEY + front;
        assert Filled(seg, KEY) == front + "/" + back;
      } else {
        FilledChars(seg[2..], KEY, 'a');
        front, back := "a", "b=c" + seg[2..];
        assert KEY == "a" + "/" + "b=c";
        assert back[1] == '=';
        assert Filled(seg, KEY) == front + "/" + back;
      }
    } else {
      assert '/' !in seg[1..];
      front, back := FilledWithKey(seg[1..]);
      front := [seg[0]] + front;
      assert Filled(seg, KEY) == front + "/" + back;
      assert seg[0] in seg;
    }
  }

  // -- the two samples -------------------------------------------------------------------------------

  /** A filled path is found by the pattern unless its last segment is the word. */
  lemma FilledFound(pre: string, last: string, tail: string)
    requires pre != "" && '\n' !in pre && last != "" && '/' !in last && (tail == "" || tail == "/")
    ensures NotDelete.Found(NotDelete.PATTERN, pre + "/" + last + tail) <==> last != NotDelete.WORD
  {
    assert pre[|pre| - 1] in pre;
    NotDelete.FoundUnlessDelete(pre + "/" + last + tail, pre, last, tail);
  }

  lemma PartsOnOneLine(t: string, pre: string, seg: string, tail: string)
    requires SplitsTemplate(t, pre, seg, tail)
    ensures '\n' !in pre && '\n' !in seg
  {
    forall c | c in pre || c in seg ensures c in t {
      if c in pre {
        var i :| 0 <= i < |pre| && pre[i] == c;
        assert t[i] == c;
      } else {
        var i :| 0 <= i < |seg| && seg[i] == c;
        assert t[|pre| + 1 + i] == c;
      }
    }
  }

  lemma SampledFound(t: string, pre: string, seg: string, tail: string)
    requires SplitsTemplate(t, pre, seg, tail)
    ensures NotDelete.Found(NotDelete.PATTERN, Sampled(t)) <==> seg != NotDelete.WORD
  {
    PartsOnOneLine(t, pre, seg, tail);
    assert t == pre + "/" + (seg + tail);
    FilledBeforeSlash(pre, seg + tail, SAMPLE);
    if tail == "/" {
      assert seg + tail == seg + "/" + "";
      FilledBeforeSlash(seg, "", SAMPLE);
      FilledSteps("", SAMPLE);
    } else {
      assert seg + tail == seg;
    }
    assert Sampled(t) == Filled(pre, SAMPLE) + "/" + Filled(seg, SAMPLE) + tail;
    FilledChars(pre, SAMPLE, '\n');
    FilledChars(seg, SAMPLE, '/');
    FilledChars(seg, SAMPLE, '_');
    FilledFound(Filled(pre, SAMPLE), Filled(seg, SAMPLE), tail);
    WordHas('_');
    if HasPlaceholder(seg) { NoPlaceholderInWord(); }
  }

  /** The word has none of the characters the samples bring in. */
  lemma WordHas(c: char)
    requires c == '_' || c == 'a' || c == '='
    ensures c !in NotDelete.WORD
  {}

  lemma {:induction false} PlaceholderHasBrace(t: string)
    requires HasPlaceholder(t)
    ensures '{' in t
  {
    if PLACEHOLDER <= t {
      assert t[0] == '{';
    } else {
      PlaceholderHasBrace(t[1..]);
    }
  }

  lemma NoPlaceholderInWord()
    ensures !HasPlaceholder(NotDelete.WORD)
  {
    if HasPlaceholder(NotDelete.WORD) {
      PlaceholderHasBrace(NotDelete.WORD);
      assert false;
    }
  }

  lemma ConcreteFound(t: string, pre: string, seg: string, tail: string)
    requires SplitsTemplate(t, pre, seg, tail)
    ensures NotDelete.Found(NotDelete.PATTERN, ConcretePath(t)) <==> seg != NotDelete.WORD
  {
    PartsOnOneLine(t, pre, seg, tail);
    var last := if Contains(t, RESTCONF_MARKER) then KEY else "abc";
    assert t == pre + "/" + (seg + tail);
    ConcreteBeforeSlash(pre, seg + tail, last);
    FilledChars(pre, "abc", '\n');
    var value := if tail == "/" then "abc" else last;
    if tail == "/" {
      assert seg + tail == seg + "/" + "";
      ConcreteBeforeSlash(seg, "", last);
    } else {
      assert seg + tail == seg;
      ConcreteLast(seg, last);
    }
    assert ConcretePath(t) == Filled(pre, "abc") + "/" + Filled(seg, value) + tail;
    LastFilledFound(Filled(pre, "abc"), seg, value, tail);
  }

  lemma LastFilledFound(pre: string, seg: string, value: string, tail: string)
    requires pre != "" && '\n' !in pre && seg != "" && '/' !in seg && '\n' !in seg && (tail == "" || tail == "/")
    requires value == "abc" || value == KEY
    ensures NotDelete.Found(NotDelete.PATTERN, pre + "/" + Filled(seg, value) + tail) <==> seg != NotDelete.WORD
  {
    NoPlaceholderInWord();
    if HasPlaceholder(seg) && value == KEY {
      var front, back := FilledWithKey(seg);
      var path := pre + "/" + front + "/" + back + tail;
      assert pre + "/" + Filled(seg, value) + tail == path;
      FilledFound(pre + "/" + front, back, tail);
      WordHas('=');
    } else {
      FilledChars(seg, value, '/');
      FilledChars(seg, value, 'a');
      WordHas('a');
      assert "abc"[0] == 'a';
      FilledFound(pre, Filled(seg, value), tail);
    }
  }

  /** SAMPLES FARE ALIKE.  The permission check's sample of a template and the generator's concrete
      path are found by the not-delete pattern alike: unless the template's last segment is the word. */
  lemma SamplesFareAlike(t: string, pre: string, seg: string, tail: string)
    requires SplitsTemplate(t, pre, seg, tail)
    ensures NotDelete.Found(NotDelete.PATTERN, Sampled(t)) == NotDelete.Found(NotDelete.PATTERN, ConcretePath(t))
      == (seg != NotDelete.WORD)
  {
    SampledFound(t, pre, seg, tail);
    ConcreteFound(t, pre, seg, tail);
  }

  /** Where the platform's pattern is this one, what the generator stops on is exactly a POST whose
      template ends in the word. */
  lemma StopsOnlyOnTheWord(rx: Regexes, p: Platform, tool: Tool)
    requires forall path :: rx.search(p.notDelete, path) == NotDelete.Found(NotDelete.PATTERN, path)
    requires forall r | r in tool.requirements :: exists pre, seg, tail :: SplitsTemplate(r.path, pre, seg, tail)
    ensures SendsPostDelete(rx, tool, p) <==> exists r, pre, tail ::
      r in tool.requirements && r.api in p.postDelete && POST in Needed(r) && SplitsTemplate(r.path, pre, "delete", tail)
  {
    hide Concretised, Contains;
    forall r | r in tool.requirements
      ensures NotDelete.Found(NotDelete.PATTERN, ConcretePath(r.path)) <==> !EndsInWord(r.path)
    {
      var pre, seg, tail :| SplitsTemplate(r.path, pre, seg, tail);
      ConcreteFound(r.path, pre, seg, tail);
      if EndsInWord(r.path) {
        var pre', tail' :| SplitsTemplate(r.path, pre', NotDelete.WORD, tail');
        ConcreteFound(r.path, pre', NotDelete.WORD, tail');
      }
    }
  }

  ghost predicate EndsInWord(t: string) {
    exists pre, tail :: SplitsTemplate(t, pre, "delete", tail)
  }
}
