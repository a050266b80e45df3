/** The EMF dialect: dropping namespace prefixes from keys without losing or confusing a value, and
    walking a collection page by page. */
module Emf {
  import opened Options

  /** Parsed JSON; an object keeps its insertion order. */
  datatype Json = Obj(members: seq<(string, Json)>) | Arr(items: seq<Json>) | Leaf(text: string)

  // -- prefixes --------------------------------------------------------------------------------------

  predicate IsLetter(c: char) {
    'A' <= c <= 'Z' || 'a' <= c <= 'z'
  }

  predicate IsWordChar(c: char) {
    IsLetter(c) || '0' <= c <= '9' || c == '_' || c == '-'
  }

  function WordLength(s: string): (n: nat)
    ensures n <= |s|
  {
    if s == "" || !IsWordChar(s[0]) then 0 else 1 + WordLength(s[1..])
  }

  /** The key without its leading `<identifier>.`, if a character (no newline) follows the dot. */
  function StripKey(key: string): string {
    var n := WordLength(key);
    if n > 0 && IsLetter(key[0]) && n + 1 < |key| && key[n] == '.' && key[n + 1] != '\n' then key[n + 1..] else key
  }

  /** A letter, then letters, digits, underscores and hyphens. */
  predicate Identifier(s: string) {
    && s != "" && ('A' <= s[0] <= 'Z' || 'a' <= s[0] <= 'z')
    && forall i :: 0 <= i < |s| ==>
         'A' <= s[i] <= 'Z' || 'a' <= s[i] <= 'z' || '0' <= s[i] <= '9' || s[i] == '_' || s[i] == '-'
  }

  lemma {:induction false} WordRun(s: string, n: nat)
    requires n <= |s| && (forall i :: 0 <= i < n ==> IsWordChar(s[i])) && (n < |s| ==> !IsWordChar(s[n]))
    ensures WordLength(s) == n
    decreases n
  {
    if n == 0 {
    } else {
      WordRun(s[1..], n - 1);
    }
  }

  lemma {:induction false} WordOf(s: string)
    ensures forall i :: 0 <= i < WordLength(s) ==> IsWordChar(s[i])
    ensures WordLength(s) < |s| ==> !IsWordChar(s[WordLength(s)])
  {
    if s == "" || !IsWordChar(s[0]) {
    } else {
      WordOf(s[1..]);
    }
  }

  /** What stripping is: an identifier and a dot go when a character other than a newline follows them;
      any other key stays. */
  lemma StripKeyMeans(key: string, prefix: string, rest: string)
    requires Identifier(prefix)
    ensures rest != "" && rest[0] != '\n' && key == prefix + "." + rest ==> StripKey(key) == rest
    ensures StripKey(key) != key ==>
      exists p, r :: Identifier(p) && r != "" && r[0] != '\n' && key == p + "." + r && StripKey(key) == r
  {
    if key == prefix + "." + rest { WordRun(key, |prefix|); }
    if StripKey(key) != key {
      var n := WordLength(key);
      WordOf(key);
      assert key == key[..n] + "." + key[n + 1..];
      assert Identifier(key[..n]);
    }
  }

  function Keys(members: seq<(string, Json)>): seq<string> {
    seq(|members|, i requires 0 <= i < |members| => members[i].0)
  }

  /** How many of the keys strip to the name. */
  function Claims(keys: seq<string>, name: string): nat {
    if keys == [] then 0 else (if StripKey(keys[0]) == name then 1 else 0) + Claims(keys[1..], name)
  }

  /** The key's stripped name, unless another key strips to it or owns it. */
  function NewKey(keys: seq<string>, key: string): string {
    var name := StripKey(key);
    if Claims(keys, name) > 1 || (name != key && name in keys) then key else name
  }

  function Stripped(j: Json): Json
    decreases j
  {
    match j
    case Obj(members) =>
      Obj(seq(|members|, i requires 0 <= i < |members| =>
        (NewKey(Keys(members), members[i].0), Stripped(members[i].1))))
    case Arr(items) => Arr(seq(|items|, i requires 0 <= i < |items| => Stripped(items[i])))
    case Leaf(_) => j
  }

  ghost predicate Distinct(keys: seq<string>) {
    forall i, j :: 0 <= i < j < |keys| ==> keys[i] != keys[j]
  }

  /** Every object, however deep, has distinct keys, as a parsed one does. */
  ghost predicate WellFormed(j: Json) {
    match j
    case Obj(members) => Distinct(Keys(members)) && forall i :: 0 <= i < |members| ==> WellFormed(members[i].1)
    case Arr(items) => forall i :: 0 <= i < |items| ==> WellFormed(items[i])
    case Leaf(_) => true
  }

  // -- the code's loop -------------------------------------------------------------------------------

  /** out[key] = value: a key already there keeps its place and loses its value. */
  function Put(out: seq<(string, Json)>, key: string, value: Json): seq<(string, Json)> {
    if out == [] then [(key, value)]
    else if out[0].0 == key then [(key, value)] + out[1..]
    else [out[0]] + Put(out[1..], key, value)
  }

  lemma {:induction false} PutNew(out: seq<(string, Json)>, key: string, value: Json)
    requires forall i :: 0 <= i < |out| ==> out[i].0 != key
    ensures Put(out, key, value) == out + [(key, value)]
  {
    if out == [] {
    } else {
      assert out[0].0 != key;
      PutNew(out[1..], key, value);
    }
  }

  method StripPrefixes(j: Json) returns (r: Json)
    requires WellFormed(j)
    ensures r == Stripped(j)
    decreases j
  {
    hide NewKey;
    match j
    case Obj(members) =>
      var keys := Keys(members);
      var out: seq<(string, Json)> := [];
      for i := 0 to |members|
        invariant out == Stripped(j).members[..i]
      {
        var newKey := NewKey(keys, members[i].0);
        var inner := StripPrefixes(members[i].1);
        forall k | 0 <= k < i ensures out[k].0 != newKey {
          assert out[k] == Stripped(j).members[k] && keys[k] == members[k].0 && keys[i] == members[i].0;
          NewKeysDiffer(keys, k, i);
        }
        PutNew(out, newKey, inner);
        out := Put(out, newKey, inner);
        assert out[i] == Stripped(j).members[i];
      }
      r := Obj(out);
    case Arr(items) =>
      var out: seq<Json> := [];
      for i := 0 to |items|
        invariant out == Stripped(j).items[..i]
      {
        var inner := StripPrefixes(items[i]);
        out := out + [inner];
      }
      r := Arr(out);
    case Leaf(_) => r := j;
  }

  // -- nothing is lost -------------------------------------------------------------------------------

  lemma {:induction false} ClaimsAtLeast(keys: seq<string>, i: nat)
    requires i < |keys|
    ensures Claims(keys, StripKey(keys[i])) >= 1
  {
    hide StripKey;
    if i == 0 {
    } else {
      assert keys[1..][i - 1] == keys[i];
      ClaimsAtLeast(keys[1..], i - 1);
    }
  }

  lemma {:induction false} SharedClaims(keys: seq<string>, i: nat, j: nat)
    requires i < j < |keys| && StripKey(keys[i]) == StripKey(keys[j])
    ensures Claims(keys, StripKey(keys[i])) >= 2
  {
    hide StripKey;
    assert keys[1..][j - 1] == keys[j];
    if i == 0 {
      ClaimsAtLeast(keys[1..], j - 1);
    } else {
      assert keys[1..][i - 1] == keys[i];
      SharedClaims(keys[1..], i - 1, j - 1);
    }
  }

  /** No key takes a name that another key owns or also strips to, and no two take the same. */
  lemma NewKeysDiffer(keys: seq<string>, i: nat, j: nat)
    requires Distinct(keys) && i < |keys| && j < |keys| && i != j
    ensures NewKey(keys, keys[i]) != NewKey(keys, keys[j])
    ensures NewKey(keys, keys[i]) != keys[j]
    ensures NewKey(keys, keys[i]) != keys[i] ==> NewKey(keys, keys[i]) != StripKey(keys[j])
  {
    hide StripKey;
    if StripKey(keys[i]) == StripKey(keys[j]) {
      if i < j { SharedClaims(keys, i, j); } else { SharedClaims(keys, j, i); }
    }
    assert keys[i] in keys && keys[j] in keys;
  }

  /** r holds j's values: objects the same number of members, in place and under distinct keys that
      are the original or its stripped name; arrays item by item; leaves unchanged. */
  ghost predicate Renames(j: Json, r: Json)
    decreases j
  {
    match j
    case Obj(members) =>
      && r.Obj? && |r.members| == |members| && Distinct(Keys(r.members))
      && forall i :: 0 <= i < |members| ==>
           (r.members[i].0 == members[i].0 || r.members[i].0 == StripKey(members[i].0))
           && Renames(members[i].1, r.members[i].1)
    case Arr(items) =>
      r.Arr? && |r.items| == |items| && forall i :: 0 <= i < |items| ==> Renames(items[i], r.items[i])
    case Leaf(_) => r == j
  }

  /** NOTHING LOST.  At every depth stripping keeps each value in place under one key of its own. */
  lemma {:induction false} StrippingRenames(j: Json)
    requires WellFormed(j)
    ensures Renames(j, Stripped(j)) && WellFormed(Stripped(j))
    decreases j
  {
    match j
    case Obj(members) =>
      var keys, r := Keys(members), Stripped(j).members;
      forall i | 0 <= i < |members| ensures Renames(members[i].1, r[i].1) && WellFormed(r[i].1) {
        StrippingRenames(members[i].1);
      }
      forall i, k | 0 <= i < k < |members| ensures Keys(r)[i] != Keys(r)[k] {
        NewKeysDiffer(keys, i, k);
      }
    case Arr(items) =>
      forall i | 0 <= i < |items| ensures Renames(items[i], Stripped(items[i])) && WellFormed(Stripped(items[i])) {
        StrippingRenames(items[i]);
      }
    case Leaf(_) =>
  }

  /** No other key is, or strips to, what key i strips to. */
  ghost predicate Uncontested(keys: seq<string>, i: nat)
    requires i < |keys|
  {
    forall k | 0 <= k < |keys| && k != i :: StripKey(keys[k]) != StripKey(keys[i]) && keys[k] != StripKey(keys[i])
  }

  /** A prefix is dropped exactly when nothing contests the stripped name. */
  lemma StrippedWhenFree(keys: seq<string>, i: nat)
    requires Distinct(keys) && i < |keys|
    ensures NewKey(keys, keys[i]) == StripKey(keys[i]) <==> StripKey(keys[i]) == keys[i] || Uncontested(keys, i)
  {
    hide StripKey;
    var name := StripKey(keys[i]);
    if Claims(keys, name) > 1 { var k := OtherClaimant(keys, i); }
    forall k | 0 <= k < |keys| && k != i && StripKey(keys[k]) == name ensures Claims(keys, name) > 1 {
      if i < k { SharedClaims(keys, i, k); } else { SharedClaims(keys, k, i); }
    }
  }

  lemma {:induction false} OtherClaimant(keys: seq<string>, i: nat) returns (k: nat)
    requires i < |keys| && Claims(keys, StripKey(keys[i])) > 1
    ensures k < |keys| && k != i && StripKey(keys[k]) == StripKey(keys[i])
  {
    hide StripKey;
    if i == 0 {
      k := SomeClaimant(keys[1..], StripKey(keys[0]));
      k := k + 1;
    } else if StripKey(keys[0]) == StripKey(keys[i]) {
      k := 0;
    } else {
      assert keys[1..][i - 1] == keys[i];
      k := OtherClaimant(keys[1..], i - 1);
      k := k + 1;
    }
  }

  lemma {:induction false} SomeClaimant(keys: seq<string>, name: string) returns (k: nat)
    requires Claims(keys, name) > 0
    ensures k < |keys| && StripKey(keys[k]) == name
  {
    hide StripKey;
    if StripKey(keys[0]) == name {
      k := 0;
    } else {
      k := SomeClaimant(keys[1..], name);
      k := k + 1;
    }
  }

  // -- pages -----------------------------------------------------------------------------------------

  datatype Header = Header(first: Option<int>, last: Option<int>)

  datatype Envelope = Envelope(count: nat, offset: nat, hasMore: bool, next: Option<int>,
                               first: Option<int>, last: Option<int>)

  /** The page length the header reports, when it reports a last position. */
  function PageLength(header: Header, start: nat): int
    requires header.last.Some?
  {
    var first := if header.first.Some? then header.first.value else start;
    var length := header.last.value - first + 1;
    if header.last.value < 0 || length < 0 then 0 else length
  }

  /** page_envelope_from: corrects the generic envelope by the header's positions. */
  method PageEnvelope(count: nat, header: Header, start: nat, max: nat) returns (env: Envelope)
    ensures env.count == count && env.offset == start && env.last == header.last
    ensures env.hasMore <==> max <= if header.last.Some? then PageLength(header, start) else count
    ensures env.next == if !env.hasMore then None
      else Some(start + if header.last.Some? then PageLength(header, start) else count)
    ensures env.first == if header.last.Some? && header.first.None? then Some(start) else header.first
  {
    var hasMore := count >= max;
    var next: Option<int> := if hasMore then Some(start + count) else None;
    env := Envelope(count, start, hasMore, next, None, None);
    var first := header.first;
    if header.last.None? {
      hasMore := env.hasMore;
      next := if hasMore then Some(start + count) else None;
    } else {
      if first.None? { first := Some(start); }
      var pageLength := 0;
      if header.last.value >= 0 {
        pageLength := header.last.value - first.value + 1;
        if pageLength < 0 { pageLength := 0; }
      }
      hasMore := pageLength >= max;
      next := if hasMore then Some(start + pageLength) else None;
    }
    env := env.(hasMore := hasMore, next := next, first := if header.last.Some? then first else header.first,
                last := header.last);
  }

  /** How a server numbers the objects of a page, if it does. */
  datatype Numbering = Absolute | AbsoluteLastOnly | PageRelative | PageRelativeLastOnly | Unnumbered

  function Min(a: int, b: int): int {
    if a < b then a else b
  }

  /** How many objects the server of n returns from start. */
  function Served(n: nat, start: nat, max: nat): nat {
    if start >= n then 0 else Min(max, n - start)
  }

  function HeaderOf(numbering: Numbering, n: nat, start: nat, max: nat): Header {
    var count := Served(n, start, max);
    match numbering
    case Unnumbered => Header(None, None)
    case Absolute => if count == 0 then Header(Some(0), Some(-1)) else Header(Some(start), Some(start + count - 1))
    case AbsoluteLastOnly => Header(None, Some(if count == 0 then -1 else start + count - 1))
    case PageRelative => if count == 0 then Header(Some(0), Some(-1)) else Header(Some(0), Some(count - 1))
    case PageRelativeLastOnly => Header(None, Some(count - 1))
  }

  /** How far the walk gets: to the end, unless only page-relative last positions are reported. */
  function Reached(n: nat, max: nat, numbering: Numbering): nat {
    if numbering.PageRelativeLastOnly? then Min(n, 2 * max) else n
  }

  /** EVERY OBJECT ONCE.  Following next_start_index from 0 visits objects 0 to n - 1 in order, each
      once, in one request per full page and one more; where a page-relative last position comes
      without a first one, the second page is the last, so it visits them all if and only if there
      are at most two pages of them. */
  method WalkPages(n: nat, max: nat, numbering: Numbering) returns (visited: seq<nat>, requests: nat)
    requires 1 <= max <= 100
    ensures visited == seq(Reached(n, max, numbering), i => i)
    ensures visited == seq(n, i => i) <==> !numbering.PageRelativeLastOnly? || n <= 2 * max
    ensures requests == if numbering.PageRelativeLastOnly? then Min(n / max + 1, 2) else n / max + 1
  {
    visited, requests := [], 0;
    var start := 0;
    while true
      invariant start <= n && visited == seq(start, i => i) && start == requests * max
      invariant numbering.PageRelativeLastOnly? ==> requests <= 1
      decreases n - start, if start < n then 1 else 0
    {
      var count := Served(n, start, max);
      visited := visited + seq(count, i requires 0 <= i < count => start + i);
      var env := PageEnvelope(count, HeaderOf(numbering, n, start, max), start, max);
      requests := requests + 1;
      if env.next.None? {
        PagesWalked(n, max, requests, numbering);
        assert |visited| == Reached(n, max, numbering);
        assert visited == seq(n, i => i) ==> |visited| == n;
        return;
      }
      start := env.next.value;
    }
  }

  /** Requests sent when the walk ends. */
  lemma PagesWalked(n: nat, max: nat, requests: nat, numbering: Numbering)
    requires max > 0 && requests > 0 && (requests - 1) * max <= n
    requires n < requests * max || (numbering.PageRelativeLastOnly? && requests == 2)
    requires numbering.PageRelativeLastOnly? ==> requests <= 2
    ensures requests == if numbering.PageRelativeLastOnly? then Min(n / max + 1, 2) else n / max + 1
  {
    if n < requests * max {
      assert requests * max == (requests - 1) * max + max;
      Quotient(n, max, requests - 1);
    } else {
      assert n == max * (n / max) + n % max;
    }
  }

  lemma Quotient(n: nat, max: nat, q: nat)
    requires max > 0 && q * max <= n < q * max + max
    ensures n / max == q
  {
    var d := n / max;
    assert n == max * d + n % max;
    if d < q { Grows(d + 1, q, max); }
    if d > q { Grows(q + 1, d, max); }
  }

  lemma Grows(a: nat, b: nat, x: nat)
    requires a <= b
    ensures a * x <= b * x
  {}
}
