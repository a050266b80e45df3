/** Path templates as the coverage scripts write them: a string in which every "{}" stands
    for a runtime value that may be any string at all. */
module Templates {

  const HOLE: string := "{}"

  /** Does the template start with a placeholder?  Placeholders are read left to right. */
  predicate StartsWithHole(t: string) {
    |t| >= 2 && t[0] == '{' && t[1] == '}'
  }

  /** The concrete string s is what template t denotes for some choice of runtime values. */
  predicate Instance(t: string, s: string) {
    if t == "" then s == ""
    else if StartsWithHole(t) then exists k :: 0 <= k <= |s| && Instance(t[2..], s[k..])
    else s != "" && s[0] == t[0] && Instance(t[1..], s[1..])
  }

  /** A template every string is an instance of. */
  ghost predicate Universal(t: string) {
    forall s :: Instance(t, s)
  }

  /** No placeholder anywhere: the template denotes itself only. */
  predicate HoleFree(t: string) {
    forall i :: 0 <= i < |t| - 1 ==> !(t[i] == '{' && t[i + 1] == '}')
  }

  lemma {:induction false} HoleIsUniversal()
    ensures Universal(HOLE)
  {
    forall s ensures Instance(HOLE, s) {
      assert Instance(HOLE[2..], s[|s|..]);
    }
  }

  lemma {:induction false} InstanceOfItself(s: string)
    ensures Instance(s, s)
  {
    if s == "" {
    } else if StartsWithHole(s) {
      InstanceOfItself(s[2..]);
    } else {
      InstanceOfItself(s[1..]);
    }
  }

  /** Instances compose under concatenation, although the two templates' braces may merge
      into a new placeholder at the seam. */
  lemma {:induction false} ConcatInstance(t1: string, s1: string, t2: string, s2: string)
    requires Instance(t1, s1) && Instance(t2, s2)
    ensures Instance(t1 + t2, s1 + s2)
    decreases |t1|, 1
  {
    if t1 == "" {
      assert t1 + t2 == t2 && s1 + s2 == s2;
    } else if StartsWithHole(t1) {
      ConcatAtHole(t1, s1, t2, s2);
    } else if StartsWithHole(t1 + t2) {
      // the seam "{" + "}": both characters are literal in s1 + s2
      assert t1 == "{" && s1 == "{";
      assert (t1 + t2)[2..] == t2[1..];
      assert (s1 + s2)[2..] == s2[1..];
    } else {
      ConcatInstance(t1[1..], s1[1..], t2, s2);
      assert (t1 + t2)[1..] == t1[1..] + t2;
      assert (s1 + s2)[1..] == s1[1..] + s2;
    }
  }

  lemma {:induction false} ConcatAtHole(t1: string, s1: string, t2: string, s2: string)
    requires StartsWithHole(t1) && Instance(t1, s1) && Instance(t2, s2)
    ensures Instance(t1 + t2, s1 + s2)
    decreases |t1|, 0
  {
    var k :| 0 <= k <= |s1| && Instance(t1[2..], s1[k..]);
    hide Instance;
    ConcatInstance(t1[2..], s1[k..], t2, s2);
    assert (t1 + t2)[2..] == t1[2..] + t2;
    assert (s1 + s2)[k..] == s1[k..] + s2;
    HoleInstance(t1 + t2, s1 + s2, k);
  }

  lemma HoleInstance(t: string, s: string, k: nat)
    requires StartsWithHole(t) && k <= |s| && Instance(t[2..], s[k..])
    ensures Instance(t, s)
  {}

  lemma ConcatUniversal(t1: string, t2: string)
    requires Universal(t1) && Universal(t2)
    ensures Universal(t1 + t2)
  {
    forall s ensures Instance(t1 + t2, s) {
      ConcatInstance(t1, s, t2, "");
      assert s + "" == s;
    }
  }

  /** Without a placeholder a template denotes exactly one string. */
  lemma {:induction false} HoleFreeInstance(t: string, s: string)
    requires HoleFree(t)
    ensures Instance(t, s) <==> s == t
  {
    if t == "" {
    } else {
      assert !StartsWithHole(t);
      if s != "" && s[0] == t[0] {
        HoleFreeInstance(t[1..], s[1..]);
        assert s == [s[0]] + s[1..] && t == [t[0]] + t[1..];
      }
    }
  }

  /** re.sub of every {...} group: what str.format does to a template's named fields. */
  function SubFields(t: string): string
    decreases |t|
  {
    if t == "" then ""
    else
      var k := FieldEnd(t);
      if k > 0 then HOLE + SubFields(t[k..]) else [t[0]] + SubFields(t[1..])
  }

  /** Length of a "{...}" group (no brace inside) at the start of t, or 0. */
  function FieldEnd(t: string): (k: nat)
    ensures k <= |t|
  {
    if t == "" || t[0] != '{' then 0
    else
      var n := PlainLength(t[1..]);
      if 1 + n < |t| && t[1 + n] == '}' then n + 2 else 0
  }

  function PlainLength(t: string): (n: nat)
    ensures n <= |t|
  {
    if t == "" || t[0] == '{' || t[0] == '}' then 0 else 1 + PlainLength(t[1..])
  }

  /** The first n characters are a field: braces around text without braces. */
  predicate IsField(t: string, n: nat) {
    2 <= n <= |t| && t[0] == '{' && t[n - 1] == '}' && forall i :: 0 < i < n - 1 ==> t[i] != '{' && t[i] != '}'
  }

  /** s is the template with some text in place of each field, read left to right. */
  ghost predicate Formats(t: string, s: string)
    decreases |t|
  {
    if t == "" then s == ""
    else if exists n: nat :: IsField(t, n) then
      exists n: nat, k: nat :: IsField(t, n) && k <= |s| && Formats(t[n..], s[k..])
    else s != "" && s[0] == t[0] && Formats(t[1..], s[1..])
  }

  lemma {:induction false} PlainRunEnds(t: string)
    ensures forall i :: 0 <= i < PlainLength(t) ==> t[i] != '{' && t[i] != '}'
    ensures PlainLength(t) < |t| ==> t[PlainLength(t)] == '{' || t[PlainLength(t)] == '}'
  {
    if t == "" || t[0] == '{' || t[0] == '}' {
    } else {
      PlainRunEnds(t[1..]);
    }
  }

  /** A field is found exactly where there is one, and whole. */
  lemma FieldEndMeans(t: string, n: nat)
    ensures n > 0 ==> (FieldEnd(t) == n <==> IsField(t, n))
    ensures FieldEnd(t) == 0 <==> forall m: nat :: !IsField(t, m)
  {
    if t != "" && t[0] == '{' {
      PlainRunEnds(t[1..]);
      var k := PlainLength(t[1..]);
      forall i | 0 < i <= k ensures t[i] != '{' && t[i] != '}' { assert t[i] == t[1..][i - 1]; }
      if 1 + k < |t| { assert t[1 + k] == t[1..][k]; }
      assert forall m: nat :: IsField(t, m) ==> m == k + 2;
      assert FieldEnd(t) > 0 ==> IsField(t, k + 2);
    }
  }

  /** FORMATTING, EXACTLY.  The strings a template's formatting can yield, whatever its fields become, are the
      instances of the template with its fields replaced by placeholders: no placeholder forms by chance. */
  lemma {:induction false} FormatsAreInstances(t: string, s: string)
    ensures Formats(t, s) <==> Instance(SubFields(t), s)
    decreases |t|
  {
    if t == "" {
    } else {
      var n := FieldEnd(t);
      FieldEndMeans(t, n);
      if n > 0 {
        FieldInstance(t, s, n);
        forall k: nat | k <= |s| ensures Formats(t[n..], s[k..]) <==> Instance(SubFields(t[n..]), s[k..]) {
          FormatsAreInstances(t[n..], s[k..]);
        }
        OneField(t, n);
      } else {
        LiteralHead(t);
        if s != "" { FormatsAreInstances(t[1..], s[1..]); }
      }
    }
  }

  lemma OneField(t: string, n: nat)
    requires n > 0 && FieldEnd(t) == n
    ensures forall m: nat :: IsField(t, m) <==> m == n
  {
    forall m: nat ensures IsField(t, m) <==> m == n {
      FieldEndMeans(t, m);
    }
  }

  lemma FieldInstance(t: string, s: string, n: nat)
    requires n == FieldEnd(t) > 0
    ensures Instance(SubFields(t), s) <==> exists k: nat :: k <= |s| && Instance(SubFields(t[n..]), s[k..])
  {
    var u := SubFields(t);
    assert u == HOLE + SubFields(t[n..]) && u[2..] == SubFields(t[n..]);
    if k: nat :| k <= |s| && Instance(SubFields(t[n..]), s[k..]) { HoleInstance(u, s, k); }
  }

  /** A literal first character stays one: it is no brace that the rest could close. */
  lemma LiteralHead(t: string)
    requires t != "" && FieldEnd(t) == 0
    ensures SubFields(t) == [t[0]] + SubFields(t[1..]) && !StartsWithHole(SubFields(t))
  {
    var rest := SubFields(t[1..]);
    assert ([t[0]] + rest)[1..] == rest;
    if t[1..] != "" && t[1] != '}' { HeadKept(t[1..]); }
    assert t[0] == '{' && |t| > 1 ==> t[1] != '}' by { FieldEndMeans(t, 2); }
  }

  /** A text that does not start with a closing brace does not come to start with one. */
  lemma HeadKept(t: string)
    requires t != "" && t[0] != '}'
    ensures SubFields(t) != "" && SubFields(t)[0] != '}'
  {}
}
