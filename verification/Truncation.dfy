/** Shortening an oversized JSON payload: whole trailing entries of one list are dropped, a marker
    says how many, and a binary search keeps as many entries as fit. */
module Truncation {
  import opened Options

  const MARKERS: seq<string> := ["truncated", "shown", "truncation_note"]

  /** The object being shortened.  members: its keys (escaped) and serialised values, in order; key:
      the member whose list is cut; entries: that list's entries, serialised at their indentation;
      before, after: the escaped note around the number of dropped entries. */
  datatype Payload = Payload(members: seq<(string, string)>, key: string, entries: seq<string>,
                             before: string, after: string)

  function Digit(d: nat): char
    requires d < 10
  {
    '0' + d as char
  }

  function Dec(n: nat): (s: string)
    ensures s != ""
  {
    if n < 10 then [Digit(n)] else Dec(n / 10) + [Digit(n % 10)]
  }

  /** json.dumps of the list, two levels in. */
  function ListText(entries: seq<string>): string {
    if entries == [] then "[]" else "[" + EntriesText(entries) + "\n  ]"
  }

  function EntriesText(entries: seq<string>): string {
    if entries == [] then ""
    else EntriesText(entries[..|entries| - 1]) + (if |entries| > 1 then "," else "") + "\n    " + entries[|entries| - 1]
  }

  function ObjectText(members: seq<(string, string)>): string {
    "{" + MembersText(members) + "\n}"
  }

  function MembersText(members: seq<(string, string)>): string {
    if members == [] then ""
    else
      "\n  \"" + members[0].0 + "\": " + members[0].1 + (if |members| > 1 then "," else "") + MembersText(members[1..])
  }

  /** The container's own members: markers shadow theirs, and the cut list replaces its value. */
  function Kept(members: seq<(string, string)>, key: string, cut: string): seq<(string, string)> {
    if members == [] then []
    else
      (if members[0].0 in MARKERS then []
       else [(members[0].0, if members[0].0 == key then cut else members[0].1)])
      + Kept(members[1..], key, cut)
  }

  function Marker(name: string, value: string, key: string, cut: string): (string, string) {
    (name, if name == key then cut else value)
  }

  function Note(p: Payload, shown: nat): string
    requires shown <= |p.entries|
  {
    "\"" + p.before + Dec(|p.entries| - shown) + p.after + "\""
  }

  function Members(p: Payload, shown: nat): seq<(string, string)>
    requires shown <= |p.entries|
  {
    var cut := ListText(p.entries[..shown]);
    [Marker(MARKERS[0], "true", p.key, cut), Marker(MARKERS[1], Dec(shown), p.key, cut),
     Marker(MARKERS[2], Note(p, shown), p.key, cut)]
    + Kept(p.members, p.key, cut)
  }

  /** The payload with the first `shown` entries. */
  function Render(p: Payload, shown: nat): string
    requires shown <= |p.entries|
  {
    ObjectText(Members(p, shown))
  }

  predicate HasKey(p: Payload) {
    exists i :: 0 <= i < |p.members| && p.members[i].0 == p.key
  }

  // -- lengths ---------------------------------------------------------------------------------------

  /** One more never takes a digit away nor adds more than one. */
  lemma {:induction false} DecStep(n: nat)
    ensures |Dec(n)| <= |Dec(n + 1)| <= |Dec(n)| + 1
  {
    if n >= 10 && (n + 1) / 10 != n / 10 {
      assert (n + 1) / 10 == n / 10 + 1;
      DecStep(n / 10);
    }
  }

  function Weight(members: seq<(string, string)>): nat {
    if members == [] then 0 else |members[0].1| + Weight(members[1..])
  }

  predicate SameKeys(a: seq<(string, string)>, b: seq<(string, string)>) {
    |a| == |b| && forall i :: 0 <= i < |a| ==> a[i].0 == b[i].0
  }

  /** Objects with the same keys differ in length as their values do. */
  lemma {:induction false} LengthByWeight(a: seq<(string, string)>, b: seq<(string, string)>)
    requires SameKeys(a, b)
    ensures |MembersText(a)| - |MembersText(b)| == Weight(a) - Weight(b)
    decreases |a|
  {
    if a == [] {
    } else {
      assert a[0].0 == b[0].0;
      LengthByWeight(a[1..], b[1..]);
    }
  }

  /** Growing the cut list grows the members that show it, and no other. */
  lemma {:induction false} KeptGrows(members: seq<(string, string)>, key: string, less: string, more: string)
    requires |less| <= |more|
    ensures SameKeys(Kept(members, key, less), Kept(members, key, more))
    ensures Weight(Kept(members, key, less)) <= Weight(Kept(members, key, more))
    ensures key !in MARKERS && (exists i :: 0 <= i < |members| && members[i].0 == key) ==>
      Weight(Kept(members, key, less)) + |more| - |less| <= Weight(Kept(members, key, more))
    decreases |members|
  {
    if members == [] {
    } else {
      KeptGrows(members[1..], key, less, more);
      var a, b := Kept(members, key, less), Kept(members, key, more);
      if members[0].0 in MARKERS {
        assert a == Kept(members[1..], key, less) && b == Kept(members[1..], key, more);
      } else {
        assert a[1..] == Kept(members[1..], key, less) && b[1..] == Kept(members[1..], key, more);
      }
      if i :| 0 <= i < |members| && members[i].0 == key && i > 0 { assert members[1..][i - 1].0 == key; }
    }
  }

  lemma ListGrows(entries: seq<string>, shown: nat)
    requires 0 < shown < |entries|
    ensures |ListText(entries[..shown + 1])| >= |ListText(entries[..shown])| + 6
  {
    assert entries[..shown + 1][..shown] == entries[..shown];
  }

  lemma WeightAfterMarkers(a: (string, string), b: (string, string), c: (string, string), rest: seq<(string, string)>)
    ensures Weight([a, b, c] + rest) == |a.1| + |b.1| + |c.1| + Weight(rest)
  {
    var all := [a, b, c] + rest;
    assert all[1..] == [b, c] + rest && ([b, c] + rest)[1..] == [c] + rest && ([c] + rest)[1..] == rest;
    assert Weight(all) == |a.1| + Weight([b, c] + rest) && Weight([b, c] + rest) == |b.1| + Weight([c] + rest);
  }

  /** STRICTLY LONGER.  Each further entry makes the text longer: the digit the note may lose cannot
      make up for it. */
  lemma RenderGrows(p: Payload, shown: nat)
    requires HasKey(p) && 0 < shown && shown + 1 < |p.entries|
    ensures |Render(p, shown)| < |Render(p, shown + 1)|
  {
    WeightGrows(p, shown);
    var less, more := ListText(p.entries[..shown]), ListText(p.entries[..shown + 1]);
    ListGrows(p.entries, shown);
    KeptGrows(p.members, p.key, less, more);
    hide ListText, Kept, Dec, Weight, MembersText;
    assert SameKeys(Members(p, shown), Members(p, shown + 1));
    LengthByWeight(Members(p, shown + 1), Members(p, shown));
  }

  lemma WeightGrows(p: Payload, shown: nat)
    requires HasKey(p) && 0 < shown && shown + 1 < |p.entries|
    ensures Weight(Members(p, shown)) < Weight(Members(p, shown + 1))
  {
    hide ListText, Kept, Dec, Weight;
    var less, more := ListText(p.entries[..shown]), ListText(p.entries[..shown + 1]);
    var a, b := Members(p, shown), Members(p, shown + 1);
    ListGrows(p.entries, shown);
    DecStep(shown);
    DecStep(|p.entries| - shown - 1);
    KeptGrows(p.members, p.key, less, more);
    WeightAfterMarkers(a[0], a[1], a[2], Kept(p.members, p.key, less));
    WeightAfterMarkers(b[0], b[1], b[2], Kept(p.members, p.key, more));
    assert p.key in MARKERS <==> p.key == MARKERS[0] || p.key == MARKERS[1] || p.key == MARKERS[2];
    assert |Note(p, shown + 1)| >= |Note(p, shown)| - 1;
  }

  lemma {:induction false} RenderMonotone(p: Payload, i: nat, j: nat)
    requires HasKey(p) && 0 < i <= j < |p.entries|
    ensures |Render(p, i)| + (j - i) <= |Render(p, j)|
    decreases j - i
  {
    if i < j {
      hide Render;
      RenderGrows(p, i);
      RenderMonotone(p, i + 1, j);
    }
  }

  // -- the search ------------------------------------------------------------------------------------

  /** The largest number of entries, at least one and not all, that fits. */
  ghost predicate Largest(p: Payload, limit: nat, shown: nat) {
    && 0 < shown < |p.entries| && |Render(p, shown)| <= limit
    && forall more | shown < more < |p.entries| :: |Render(p, more)| > limit
  }

  /** _truncate_json once the list is chosen.  The text found fits, so the adjustment loop after the
      search has nothing to do. */
  method TruncateJson(p: Payload, limit: nat) returns (text: Option<string>)
    requires HasKey(p)
    ensures text.None? ==> forall shown | 0 < shown < |p.entries| :: |Render(p, shown)| > limit
    ensures text.Some? ==> exists shown: nat :: Largest(p, limit, shown) && text.value == Render(p, shown)
  {
    hide Render;
    var best, lo, hi := 0, 1, |p.entries| - 1;
    while lo <= hi
      invariant 1 <= lo <= hi + 2 && hi <= |p.entries| - 1 && (|p.entries| > 0 ==> lo <= hi + 1)
      invariant best == lo - 1
      invariant best > 0 ==> best < |p.entries| && |Render(p, best)| <= limit
      invariant forall more | hi < more < |p.entries| && more > 0 :: |Render(p, more)| > limit
      decreases hi - lo
    {
      var mid := (lo + hi) / 2;
      if |Render(p, mid)| <= limit {
        best, lo := mid, mid + 1;
      } else {
        forall more | mid <= more < |p.entries| ensures |Render(p, more)| > limit { RenderMonotone(p, mid, more); }
        hi := mid - 1;
      }
    }
    if best == 0 { return None; }
    assert Largest(p, limit, best);
    text := Some(Render(p, best));
  }

  /** Which list is cut: `items`, else the first of the longest, by serialised length. */
  method ChooseKey(lists: seq<(string, string)>) returns (key: string)
    requires lists != []
    ensures (exists i :: 0 <= i < |lists| && lists[i].0 == "items") ==> key == "items"
    ensures (forall i | 0 <= i < |lists| :: lists[i].0 != "items") ==>
      exists i :: 0 <= i < |lists| && lists[i].0 == key
        && (forall j | 0 <= j < |lists| :: |lists[j].1| <= |lists[i].1|)
        && (forall j | 0 <= j < i :: |lists[j].1| < |lists[i].1|)
  {
    var best := 0;
    for i := 0 to |lists|
      invariant 0 <= best < |lists| && (best < i || best == 0)
      invariant forall j | 0 <= j < i :: lists[j].0 != "items" && |lists[j].1| <= |lists[best].1|
      invariant forall j | 0 <= j < best :: |lists[j].1| < |lists[best].1|
    {
      if lists[i].0 == "items" { return "items"; }
      if |lists[i].1| > |lists[best].1| { best := i; }
    }
    key := lists[best].0;
  }

  lemma {:induction false} RestKept(members: seq<(string, string)>, key: string, cut: string, i: nat)
    requires i < |members| && members[i].0 !in MARKERS
    ensures (members[i].0, if members[i].0 == key then cut else members[i].1) in Kept(members, key, cut)
    decreases |members|
  {
    var kept := Kept(members, key, cut);
    if i == 0 {
      assert kept[0] == (members[0].0, if members[0].0 == key then cut else members[0].1);
    } else {
      assert members[1..][i - 1] == members[i];
      RestKept(members[1..], key, cut, i - 1);
      assert forall m | m in Kept(members[1..], key, cut) :: m in kept;
    }
  }

  /** Every member of the object but a marker's namesake is there, the cut list with its first
      entries, the others unchanged; and the markers head the object. */
  lemma MembersKept(p: Payload, shown: nat, i: nat)
    requires shown <= |p.entries| && i < |p.members| && p.members[i].0 !in MARKERS
    ensures (p.members[i].0, if p.members[i].0 == p.key then ListText(p.entries[..shown]) else p.members[i].1)
      in Members(p, shown)
    ensures Members(p, shown)[0].0 == "truncated" && Members(p, shown)[2].0 == "truncation_note"
  {
    RestKept(p.members, p.key, ListText(p.entries[..shown]), i);
  }

  /** They keep their order; when none is called like a marker, all of them follow the three. */
  lemma MembersInOrder(p: Payload, shown: nat)
    requires shown <= |p.entries| && forall i :: 0 <= i < |p.members| ==> p.members[i].0 !in MARKERS
    ensures Members(p, shown)[3..] == seq(|p.members|, i requires 0 <= i < |p.members| =>
      (p.members[i].0, if p.members[i].0 == p.key then ListText(p.entries[..shown]) else p.members[i].1))
  {
    hide ListText, Dec;
    AllKept(p.members, p.key, ListText(p.entries[..shown]));
  }

  lemma {:induction false} AllKept(members: seq<(string, string)>, key: string, cut: string)
    requires forall i :: 0 <= i < |members| ==> members[i].0 !in MARKERS
    ensures Kept(members, key, cut) == seq(|members|, i requires 0 <= i < |members| =>
      (members[i].0, if members[i].0 == key then cut else members[i].1))
    decreases |members|
  {
    if members == [] {
    } else {
      AllKept(members[1..], key, cut);
    }
  }

  // -- the marker ------------------------------------------------------------------------------------

  /** The answer says how many entries it shows unless the cut list is itself called `shown`, whose
      value then takes the marker's place. */
  lemma ShownReported(p: Payload, shown: nat)
    requires 0 < shown < |p.entries|
    ensures Members(p, shown)[1] == ("shown", Dec(shown)) <==> p.key != "shown"
  {
    DecStartsWithDigit(shown);
    assert ListText(p.entries[..shown])[0] == '[';
    assert MARKERS[1] == "shown";
  }

  lemma {:induction false} DecStartsWithDigit(n: nat)
    ensures '0' <= Dec(n)[0] <= '9'
  {
    if n >= 10 { DecStartsWithDigit(n / 10); }
  }

  function Value(c: char): nat
    requires '0' <= c <= '9'
  {
    c as nat - '0' as nat
  }

  predicate Digits(s: string) {
    s != "" && forall i :: 0 <= i < |s| ==> '0' <= s[i] <= '9'
  }

  /** int(s). */
  function Parsed(s: string): nat
    requires forall i :: 0 <= i < |s| ==> '0' <= s[i] <= '9'
  {
    if s == "" then 0 else 10 * Parsed(s[..|s| - 1]) + Value(s[|s| - 1])
  }

  lemma {:induction false} DecParses(n: nat)
    ensures Digits(Dec(n)) && Parsed(Dec(n)) == n
  {
    if n < 10 {
      assert Dec(n)[..0] == "";
    } else {
      DecParses(n / 10);
      assert Dec(n)[..|Dec(n)| - 1] == Dec(n / 10);
    }
  }

  /** The note, with `dropped` as its number. */
  predicate NotesDropped(p: Payload, note: (string, string), dropped: string) {
    Digits(dropped) && note == ("truncation_note", "\"" + p.before + dropped + p.after + "\"")
  }

  /** The numbers add up: what the marker says is shown and what the note says was dropped, read back as
      decimals, are the entries kept and the others. */
  lemma CountsReported(p: Payload, shown: nat)
    requires 0 < shown < |p.entries| && p.key !in MARKERS
    ensures Members(p, shown)[0] == ("truncated", "true")
    ensures Members(p, shown)[1].0 == "shown" && Digits(Members(p, shown)[1].1)
      && Parsed(Members(p, shown)[1].1) == shown
    ensures exists dropped :: NotesDropped(p, Members(p, shown)[2], dropped) && Parsed(dropped) == |p.entries| - shown
  {
    MarkersOwn(p, shown);
    DecParses(shown);
    DecParses(|p.entries| - shown);
    hide Dec, Members, Parsed;
    assert NotesDropped(p, Members(p, shown)[2], Dec(|p.entries| - shown));
  }

  lemma MarkersOwn(p: Payload, shown: nat)
    requires shown <= |p.entries| && p.key !in MARKERS
    ensures Members(p, shown)[0] == ("truncated", "true")
    ensures Members(p, shown)[1] == ("shown", Dec(shown)) && Members(p, shown)[2] == ("truncation_note", Note(p, shown))
  {
    hide Dec, Note, Kept, ListText;
    assert MARKERS[0] in MARKERS && MARKERS[1] in MARKERS && MARKERS[2] in MARKERS;
  }
}
