/** The per-user outbound tag `b-<client>-<backend>`: printer, parser and the drain's suffix count. */
module Tags {
  import opened Domain

  function LowerChar(c: char): char {
    if 'A' <= c <= 'Z' then (c as int + 32) as char else c
  }

  /** Lower-casing of ASCII text, character by character. */
  function Lower(s: string): (r: string)
    ensures |r| == |s|
    ensures forall i | 0 <= i < |s| :: r[i] == LowerChar(s[i])
  {
    seq(|s|, i requires 0 <= i < |s| => LowerChar(s[i]))
  }

  predicate HasPrefix(s: string, p: string) {
    p <= s
  }

  predicate HasSuffix(s: string, p: string) {
    |p| <= |s| && s[|s| - |p|..] == p
  }

  function Hyphens(s: string): nat {
    if s == [] then 0 else (if s[0] == '-' then 1 else 0) + Hyphens(s[1..])
  }

  /** Puts one more character in front of the first part. */
  function Attach(c: char, parts: seq<string>): (r: seq<string>)
    requires parts != []
    ensures |r| == |parts|
  {
    [[c] + parts[0]] + parts[1..]
  }

  function Split(s: string): (parts: seq<string>)
    ensures |parts| == Hyphens(s) + 1
  {
    if s == [] then [[]]
    else if s[0] == '-' then [[]] + Split(s[1..])
    else Attach(s[0], Split(s[1..]))
  }

  function Join(parts: seq<string>): string {
    if parts == [] then []
    else if |parts| == 1 then parts[0]
    else parts[0] + "-" + Join(parts[1..])
  }

  const OUTBOUND_PREFIX := "b-"
  const SELECTOR_PREFIX := "u-"

  function OutboundTag(client: string, backend: string): string {
    OUTBOUND_PREFIX + Lower(client) + "-" + Lower(backend)
  }

  function SelectorTag(client: string): string {
    SELECTOR_PREFIX + Lower(client)
  }

  function ParseTag(tag: string): (r: Option<(string, string)>) {
    if !HasPrefix(tag, OUTBOUND_PREFIX) then None
    else
      var parts := Split(tag);
      if |parts| != 11 then None
      else Some((Join(parts[1..6]), Join(parts[6..11])))
  }

  // Case.

  /** The characters are equal, or a capital letter and its small one. */
  predicate SameButCase(c: char, d: char) {
    || c == d
    || ('A' <= c <= 'Z' && d as int == c as int - 'A' as int + 'a' as int)
    || ('A' <= d <= 'Z' && c as int == d as int - 'A' as int + 'a' as int)
  }

  /** Lower-casing forgets the case of letters and nothing else. */
  lemma LowerTells(s: string, t: string)
    ensures Lower(s) == Lower(t) <==> |s| == |t| && forall i | 0 <= i < |s| :: SameButCase(s[i], t[i])
    ensures forall i | 0 <= i < |s| :: !('A' <= Lower(s)[i] <= 'Z') && SameButCase(s[i], Lower(s)[i])
  {
    forall i | 0 <= i < |s| && i < |t| ensures LowerChar(s[i]) == LowerChar(t[i]) <==> SameButCase(s[i], t[i]) {
    }
    if Lower(s) == Lower(t) {
      forall i | 0 <= i < |s| ensures SameButCase(s[i], t[i]) { assert Lower(s)[i] == Lower(t)[i]; }
    }
  }

  /** The tags of a client and a backend, spelled out. */
  lemma TagText()
    ensures OutboundTag("Ab", "C9") == "b-ab-c9" && SelectorTag("Ab") == "u-ab"
  {
    assert Lower("Ab") == "ab" && Lower("C9") == "c9";
  }

  // Splitting and joining are inverse.

  lemma JoinAttach(c: char, parts: seq<string>)
    requires parts != []
    ensures Join(Attach(c, parts)) == [c] + Join(parts)
  {
    var r := Attach(c, parts);
    assert r[0] == [c] + parts[0] && r[1..] == parts[1..];
    if |parts| > 1 {
      var tail := "-" + Join(parts[1..]);
      assert Join(r) == r[0] + tail;
      assert Join(parts) == parts[0] + tail;
    }
  }

  lemma {:induction false} JoinSplit(s: string)
    ensures Join(Split(s)) == s
  {
    if s != [] {
      var rest := Split(s[1..]);
      JoinSplit(s[1..]);
      assert s == [s[0]] + s[1..];
      if s[0] == '-' {
        assert ([[]] + rest)[1..] == rest;
      } else {
        JoinAttach(s[0], rest);
      }
    }
  }

  /** A separator between two texts separates their parts. */
  lemma {:induction false} SplitAcross(a: string, b: string)
    ensures Split(a + "-" + b) == Split(a) + Split(b)
  {
    var whole := a + "-" + b;
    if a == [] {
      assert whole[0] == '-' && whole[1..] == b;
    } else {
      assert whole[0] == a[0] && whole[1..] == a[1..] + "-" + b;
      SplitAcross(a[1..], b);
      if a[0] != '-' {
        AttachAppend(a[0], Split(a[1..]), Split(b));
      } else {
        assert [[]] + (Split(a[1..]) + Split(b)) == ([[]] + Split(a[1..])) + Split(b);
      }
    }
  }

  lemma AttachAppend(c: char, p: seq<string>, q: seq<string>)
    requires p != []
    ensures Attach(c, p + q) == Attach(c, p) + q
  {
    assert (p + q)[0] == p[0] && (p + q)[1..] == p[1..] + q;
  }

  lemma {:induction false} JoinAcross(p: seq<string>, q: seq<string>)
    requires p != [] && q != []
    ensures Join(p + q) == Join(p) + "-" + Join(q)
  {
    assert (p + q)[0] == p[0];
    if |p| == 1 {
      assert (p + q)[1..] == q;
    } else {
      assert (p + q)[1..] == p[1..] + q;
      JoinAcross(p[1..], q);
      assert p[0] + "-" + (Join(p[1..]) + "-" + Join(q)) == (p[0] + "-" + Join(p[1..])) + "-" + Join(q);
    }
  }

  lemma {:induction false} HyphensAppend(a: string, b: string)
    ensures Hyphens(a + b) == Hyphens(a) + Hyphens(b)
  {
    if a == [] {
      assert a + b == b;
    } else {
      assert (a + b)[0] == a[0] && (a + b)[1..] == a[1..] + b;
      HyphensAppend(a[1..], b);
    }
  }

  lemma {:induction false} LowerKeepsHyphens(s: string)
    ensures Hyphens(Lower(s)) == Hyphens(s)
  {
    if s != [] {
      assert Lower(s)[1..] == Lower(s[1..]);
      LowerKeepsHyphens(s[1..]);
    }
  }

  /** Parts of a split text hold no hyphen, so joining n of them gives n - 1 hyphens. */
  lemma {:induction false} PartsAreHyphenFree(s: string)
    ensures forall p | p in Split(s) :: Hyphens(p) == 0
  {
    if s != [] {
      PartsAreHyphenFree(s[1..]);
      var rest := Split(s[1..]);
      assert rest[0] in rest;
      if s[0] != '-' {
        HyphensAppend([s[0]], rest[0]);
        assert forall p | p in Split(s) :: p == [s[0]] + rest[0] || p in rest;
      }
    }
  }

  lemma {:induction false} JoinHyphens(parts: seq<string>)
    requires parts != [] && forall p | p in parts :: Hyphens(p) == 0
    ensures Hyphens(Join(parts)) == |parts| - 1
  {
    if |parts| > 1 {
      JoinHyphens(parts[1..]);
      HyphensAppend(parts[0], "-");
      HyphensAppend(parts[0] + "-", Join(parts[1..]));
    }
  }

  /** Joining the two halves of a run of hyphen-free parts after a head. */
  lemma JoinHeadAndHalves(head: string, c: seq<string>, b: seq<string>)
    requires c != [] && b != []
    ensures Join([head] + (c + b)) == head + "-" + Join(c) + "-" + Join(b)
  {
    JoinAcross([head], c + b);
    JoinAcross(c, b);
  }

  lemma SplitB()
    ensures Split("b") == ["b"]
  {
    assert "b"[1..] == [] && Split("b") == Attach('b', [[]]);
    assert ['b'] + [] == "b";
  }

  lemma HeadOfTag(tag: string)
    requires HasPrefix(tag, "b-")
    ensures Split(tag)[0] == "b"
  {
    assert tag == "b" + "-" + tag[2..];
    SplitAcross("b", tag[2..]);
    SplitB();
  }

  /** Eleven parts headed by `b` join to `b-<client>-<backend>`, five parts to each id. */
  lemma JoinTagParts(parts: seq<string>)
    requires |parts| == 11 && parts[0] == "b"
    ensures Join(parts) == "b-" + Join(parts[1..6]) + "-" + Join(parts[6..11])
  {
    var c, b := parts[1..6], parts[6..11];
    assert parts == [parts[0]] + (c + b);
    JoinHeadAndHalves(parts[0], c, b);
  }

  lemma PartsHyphens(tag: string, i: nat)
    requires i + 5 <= |Split(tag)|
    ensures Hyphens(Join(Split(tag)[i..i + 5])) == 4
  {
    PartsAreHyphenFree(tag);
    JoinHyphens(Split(tag)[i..i + 5]);
  }

  /** Every tag that parses is `b-<client>-<backend>` with four hyphens in each id. */
  lemma ParsedTagShape(tag: string)
    requires ParseTag(tag).Some?
    ensures tag == "b-" + ParseTag(tag).value.0 + "-" + ParseTag(tag).value.1
    ensures Hyphens(ParseTag(tag).value.0) == 4 && Hyphens(ParseTag(tag).value.1) == 4
  {
    JoinSplit(tag);
    HeadOfTag(tag);
    JoinTagParts(Split(tag));
    PartsHyphens(tag, 1);
    PartsHyphens(tag, 6);
  }

  lemma SplitTag(client: string, backend: string)
    ensures Split("b-" + client + "-" + backend) == ["b"] + (Split(client) + Split(backend))
  {
    var tail := client + "-" + backend;
    assert "b-" + client + "-" + backend == "b" + "-" + tail;
    SplitAcross("b", tail);
    SplitAcross(client, backend);
    SplitB();
  }

  lemma SliceParts(head: string, c: seq<string>, b: seq<string>)
    requires |c| == 5 && |b| == 5
    ensures ([head] + (c + b))[1..6] == c && ([head] + (c + b))[6..11] == b
  {
  }

  /** A tag `b-<client>-<backend>` with four hyphens in each id parses back to those ids. */
  lemma ParsesShapedTag(client: string, backend: string)
    requires Hyphens(client) == 4 && Hyphens(backend) == 4
    ensures ParseTag("b-" + client + "-" + backend) == Some((client, backend))
  {
    SplitTag(client, backend);
    SliceParts("b", Split(client), Split(backend));
    JoinSplit(client);
    JoinSplit(backend);
  }

  /** Parsing undoes printing, up to case, exactly when both ids carry four hyphens. */
  lemma PrintParse(client: string, backend: string)
    ensures ParseTag(OutboundTag(client, backend)) == Some((Lower(client), Lower(backend)))
            <==> Hyphens(client) == 4 && Hyphens(backend) == 4
  {
    LowerKeepsHyphens(client);
    LowerKeepsHyphens(backend);
    if Hyphens(client) == 4 && Hyphens(backend) == 4 {
      ParsesShapedTag(Lower(client), Lower(backend));
    } else if ParseTag(OutboundTag(client, backend)).Some? {
      ParsedTagShape(OutboundTag(client, backend));
    }
  }

  /** Printing is injective up to case on ids with four hyphens. */
  lemma PrintInjective(c1: string, b1: string, c2: string, b2: string)
    requires Hyphens(c1) == 4 && Hyphens(b1) == 4 && Hyphens(c2) == 4 && Hyphens(b2) == 4
    requires OutboundTag(c1, b1) == OutboundTag(c2, b2)
    ensures Lower(c1) == Lower(c2) && Lower(b1) == Lower(b2)
  {
    PrintParse(c1, b1);
    PrintParse(c2, b2);
  }

  /** The hypothesis cannot be dropped: two different pairs with other hyphen counts share a tag. */
  lemma PrintCollides()
    ensures OutboundTag("a-b", "c") == OutboundTag("a", "b-c")
  {
    assert OutboundTag("a-b", "c") == "b-a-b-c";
    assert OutboundTag("a", "b-c") == "b-a-b-c";
  }

  // The drain counts connections by suffix.

  predicate CountedForDrain(tag: string, target: string) {
    HasPrefix(tag, "b-") && HasSuffix(tag, "-" + Lower(target))
  }

  /** The last five parts of a text are those of any four-hyphen suffix after a hyphen. */
  lemma LastParts(front: string, id: string)
    requires Hyphens(id) == 4
    ensures |Split(front + "-" + id)| >= 5
    ensures Join(Split(front + "-" + id)[|Split(front + "-" + id)| - 5..]) == id
  {
    SplitAcross(front, id);
    JoinSplit(id);
    assert (Split(front) + Split(id))[|Split(front)|..] == Split(id);
  }

  lemma SuffixGivesBackend(tag: string, target: string)
    requires ParseTag(tag).Some? && Hyphens(target) == 4 && CountedForDrain(tag, target)
    ensures ParseTag(tag).value.1 == Lower(target)
  {
    var front := tag[..|tag| - |"-" + Lower(target)|];
    LowerKeepsHyphens(target);
    LastParts(front, Lower(target));
    assert tag == front + "-" + Lower(target);
    assert Split(tag)[6..] == Split(tag)[6..11];
  }

  lemma BackendGivesSuffix(tag: string, target: string)
    requires ParseTag(tag).Some? && ParseTag(tag).value.1 == Lower(target)
    ensures CountedForDrain(tag, target)
  {
    ParsedTagShape(tag);
    var front, suffix := "b-" + ParseTag(tag).value.0, "-" + Lower(target);
    assert tag == front + suffix;
    assert tag[|tag| - |suffix|..] == suffix;
  }

  /** On tags that parse, the suffix test is the test on the parsed backend. */
  lemma SuffixIsParsedBackend(tag: string, target: string)
    requires ParseTag(tag).Some? && Hyphens(target) == 4
    ensures CountedForDrain(tag, target) <==> ParseTag(tag).value.1 == Lower(target)
  {
    if CountedForDrain(tag, target) {
      SuffixGivesBackend(tag, target);
    } else if ParseTag(tag).value.1 == Lower(target) {
      BackendGivesSuffix(tag, target);
    }
  }

  type Entry = (string, nat)

  /** The connections of the entries whose tag is kept. */
  function Total(entries: seq<Entry>, keep: string -> bool): nat {
    if entries == [] then 0
    else
      var last := entries[|entries| - 1];
      Total(entries[..|entries| - 1], keep) + (if keep(last.0) then last.1 else 0)
  }

  predicate BackendIs(tag: string, target: string) {
    ParseTag(tag).Some? && ParseTag(tag).value.1 == Lower(target)
  }

  /** When every `b-` tag in the report parses, the suffix count is the number of connections whose
      tag names the old backend. */
  lemma {:induction false} SuffixCountIsBackendCount(entries: seq<Entry>, target: string)
    requires Hyphens(target) == 4
    requires forall e | e in entries && HasPrefix(e.0, "b-") :: ParseTag(e.0).Some?
    ensures Total(entries, t => CountedForDrain(t, target)) == Total(entries, t => BackendIs(t, target))
  {
    if entries != [] {
      var last := entries[|entries| - 1];
      SuffixCountIsBackendCount(entries[..|entries| - 1], target);
      if ParseTag(last.0).Some? { SuffixIsParsedBackend(last.0, target); }
    }
  }

  /** The number of connections still on the old backend, over the report's entries in whatever
      order they are visited. */
  method OldBackendConnections(entries: seq<Entry>, target: string) returns (total: nat)
    ensures total == Total(entries, t => CountedForDrain(t, target))
  {
    total := 0;
    for i := 0 to |entries|
      invariant total == Total(entries[..i], t => CountedForDrain(t, target))
    {
      assert entries[..i + 1][..i] == entries[..i];
      if CountedForDrain(entries[i].0, target) {
        total := total + entries[i].1;
      }
    }
    assert entries[..|entries|] == entries;
  }
}
