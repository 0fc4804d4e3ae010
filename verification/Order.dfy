/** Sorting as the library's sort is used here: keys are pairwise distinct, so the result is the
    only strictly ascending arrangement of the elements. */
module Order {
  import opened Domain

  ghost predicate StrictOrder<T(!new)>(lt: (T, T) -> bool) {
    && (forall x :: !lt(x, x))
    && (forall x, y, z :: lt(x, y) && lt(y, z) ==> lt(x, z))
  }

  ghost predicate TotalOn<T>(lt: (T, T) -> bool, s: set<T>) {
    forall x, y | x in s && y in s :: x == y || lt(x, y) || lt(y, x)
  }

  predicate Ascending<T>(lt: (T, T) -> bool, s: seq<T>) {
    forall i, j | 0 <= i < j < |s| :: lt(s[i], s[j])
  }

  function Insert<T>(lt: (T, T) -> bool, x: T, s: seq<T>): (r: seq<T>)
    ensures multiset(r) == multiset(s) + multiset{x}
  {
    if s == [] then [x]
    else if lt(x, s[0]) then [x] + s
    else
      assert s == [s[0]] + s[1..];
      [s[0]] + Insert(lt, x, s[1..])
  }

  function Sort<T>(lt: (T, T) -> bool, s: seq<T>): (r: seq<T>)
    ensures multiset(r) == multiset(s)
  {
    if s == [] then []
    else
      assert s == [s[0]] + s[1..];
      Insert(lt, s[0], Sort(lt, s[1..]))
  }

  lemma SameElements<T>(a: seq<T>, b: seq<T>)
    requires multiset(a) == multiset(b)
    ensures forall x :: x in a <==> x in b
    ensures |a| == |b|
    ensures SetOf(a) == SetOf(b)
  {
    forall x ensures x in a <==> x in b {
      assert x in multiset(a) <==> x in multiset(b);
    }
    assert |multiset(a)| == |multiset(b)|;
  }

  lemma {:induction false} InsertAscending<T(!new)>(lt: (T, T) -> bool, x: T, s: seq<T>)
    requires StrictOrder(lt) && TotalOn(lt, SetOf([x] + s)) && Ascending(lt, s) && x !in s
    ensures Ascending(lt, Insert(lt, x, s))
  {
    if s != [] && !lt(x, s[0]) {
      assert s[0] in SetOf([x] + s) && x in SetOf([x] + s);
      assert SetOf([x] + s[1..]) <= SetOf([x] + s);
      InsertAscending(lt, x, s[1..]);
      var t := Insert(lt, x, s[1..]);
      assert multiset(t) == multiset([x] + s[1..]);
      SameElements(t, [x] + s[1..]);
      forall k | 0 <= k < |t| ensures lt(s[0], t[k]) {
        assert t[k] in [x] + s[1..];
      }
    }
  }

  predicate Distinct<T(==)>(s: seq<T>) {
    forall i, j | 0 <= i < j < |s| :: s[i] != s[j]
  }

  /** Sorting pairwise distinct elements gives a strictly ascending sequence of the same elements. */
  lemma {:induction false} SortAscending<T(!new)>(lt: (T, T) -> bool, s: seq<T>)
    requires StrictOrder(lt) && TotalOn(lt, SetOf(s)) && Distinct(s)
    ensures Ascending(lt, Sort(lt, s)) && SetOf(Sort(lt, s)) == SetOf(s)
  {
    SameElements(Sort(lt, s), s);
    if s != [] {
      var t := Sort(lt, s[1..]);
      assert SetOf(s[1..]) <= SetOf(s);
      SortAscending(lt, s[1..]);
      SameElements(t, s[1..]);
      assert s[0] !in s[1..];
      assert SetOf([s[0]] + t) == SetOf(s) by {
        assert forall x :: x in [s[0]] + t <==> x == s[0] || x in s[1..];
        assert forall x :: x in s <==> x == s[0] || x in s[1..];
      }
      InsertAscending(lt, s[0], t);
    }
  }

  /** A strictly ascending arrangement is determined by the set of its elements. */
  lemma {:induction false} AscendingUnique<T(!new)>(lt: (T, T) -> bool, a: seq<T>, b: seq<T>)
    requires StrictOrder(lt) && Ascending(lt, a) && Ascending(lt, b)
    requires SetOf(a) == SetOf(b)
    ensures a == b
  {
    if a != [] { assert a[0] in SetOf(a); }
    if b != [] { assert b[0] in SetOf(b); }
    if a != [] {
      assert a[0] in SetOf(b) && b[0] in SetOf(a);
      assert a[0] == b[0];
      var a', b' := a[1..], b[1..];
      forall x ensures x in a' <==> x in b' {
        if x in a' {
          assert x in SetOf(a) && x != a[0];
        }
        if x in b' {
          assert x in SetOf(b) && x != b[0];
        }
      }
      AscendingUnique(lt, a', b');
    }
  }

  /** Bytewise comparison of identifiers. */
  predicate Less(a: string, b: string) {
    if b == [] then false
    else if a == [] then true
    else a[0] < b[0] || (a[0] == b[0] && Less(a[1..], b[1..]))
  }

  lemma {:induction false} LessTransitive(a: string, b: string, c: string)
    requires Less(a, b) && Less(b, c)
    ensures Less(a, c)
  {
    if a != [] && a[0] == b[0] && b[0] == c[0] {
      LessTransitive(a[1..], b[1..], c[1..]);
    }
  }

  lemma {:induction false} LessIrreflexive(a: string)
    ensures !Less(a, a)
  {
    if a != [] { LessIrreflexive(a[1..]); }
  }

  lemma {:induction false} LessTotal(a: string, b: string)
    ensures a == b || Less(a, b) || Less(b, a)
  {
    if a != [] && b != [] && a[0] == b[0] {
      LessTotal(a[1..], b[1..]);
      assert a == [a[0]] + a[1..] && b == [b[0]] + b[1..];
    }
  }

  /** The first difference decides, and a proper prefix comes first. */
  lemma {:induction false} LessIff(a: string, b: string)
    ensures Less(a, b) <==>
            exists k | 0 <= k <= |a| && k <= |b| :: a[..k] == b[..k] && (if k == |a| then k < |b| else k < |b| && a[k] < b[k])
  {
    if a == [] || b == [] {
      if a == [] && b != [] { assert a[..0] == b[..0]; }
    } else if a[0] != b[0] {
      if a[0] < b[0] { assert a[..0] == b[..0]; }
      forall k | 0 < k <= |a| && k <= |b| ensures a[..k] != b[..k] { assert a[..k][0] == a[0] && b[..k][0] == b[0]; }
    } else {
      LessIff(a[1..], b[1..]);
      forall k | 0 <= k <= |a[1..]| && k <= |b[1..]| ensures a[1..][..k] == b[1..][..k] <==> a[..k + 1] == b[..k + 1] {
        assert a[..k + 1] == [a[0]] + a[1..][..k] && b[..k + 1] == [b[0]] + b[1..][..k];
        assert a[..k + 1][1..] == a[1..][..k] && b[..k + 1][1..] == b[1..][..k];
      }
      if k :| 0 <= k <= |a| && k <= |b| && a[..k] == b[..k] && (if k == |a| then k < |b| else k < |b| && a[k] < b[k]) {
        assert k > 0;
        assert a[1..][..k - 1] == b[1..][..k - 1];
      }
      if k :| 0 <= k <= |a[1..]| && k <= |b[1..]| && a[1..][..k] == b[1..][..k]
              && (if k == |a[1..]| then k < |b[1..]| else k < |b[1..]| && a[1..][k] < b[1..][k]) {
        assert a[..k + 1] == b[..k + 1];
      }
    }
  }

  lemma LessIsOrder(s: set<string>)
    ensures StrictOrder(Less) && TotalOn(Less, s)
  {
    forall x ensures !Less(x, x) { LessIrreflexive(x); }
    forall x, y, z | Less(x, y) && Less(y, z) ensures Less(x, z) { LessTransitive(x, y, z); }
    forall x, y ensures x == y || Less(x, y) || Less(y, x) { LessTotal(x, y); }
  }

  lemma ArrangementExists<T(!new)>(lt: (T, T) -> bool, s: set<T>) returns (r: seq<T>)
    requires StrictOrder(lt) && TotalOn(lt, s)
    ensures Ascending(lt, r) && SetOf(r) == s
    decreases |s|
  {
    if s == {} {
      r := [];
    } else {
      var x :| x in s;
      var q := ArrangementExists(lt, s - {x});
      assert x !in q by { assert x !in SetOf(q); }
      assert SetOf([x] + q) == SetOf(q) + {x};
      assert s == s - {x} + {x};
      InsertAscending(lt, x, q);
      r := Insert(lt, x, q);
      assert multiset(r) == multiset([x] + q);
      SameElements(r, [x] + q);
    }
  }

  /** The elements of a set in ascending order. */
  ghost function Arranged<T(!new)>(lt: (T, T) -> bool, s: set<T>): (r: seq<T>)
    requires StrictOrder(lt) && TotalOn(lt, s)
    ensures Ascending(lt, r) && SetOf(r) == s
  {
    assert exists q :: Ascending(lt, q) && SetOf(q) == s by { var w := ArrangementExists(lt, s); }
    var r :| Ascending(lt, r) && SetOf(r) == s;
    r
  }

  ghost function Names(s: set<string>): (r: seq<string>)
    ensures Ascending(Less, r) && SetOf(r) == s
  {
    LessIsOrder(s);
    Arranged(Less, s)
  }

  /** Sorting pairwise distinct names lists their set in ascending order. */
  lemma SortIsNames(s: seq<string>)
    requires Distinct(s)
    ensures Sort(Less, s) == Names(SetOf(s))
  {
    LessIsOrder(SetOf(s));
    SortAscending(Less, s);
    AscendingUnique(Less, Sort(Less, s), Names(SetOf(s)));
  }

  // Filtering.

  function Filter<T(!new)>(s: seq<T>, keep: T -> bool): (r: seq<T>)
    ensures forall x :: x in r <==> x in s && keep(x)
  {
    if s == [] then []
    else
      var front, last := s[..|s| - 1], s[|s| - 1];
      assert s == front + [last];
      if keep(last) then Filter(front, keep) + [last] else Filter(front, keep)
  }

  lemma {:induction false} FilterAppend<T(!new)>(s: seq<T>, t: seq<T>, keep: T -> bool)
    ensures Filter(s + t, keep) == Filter(s, keep) + Filter(t, keep)
  {
    if t == [] {
      assert s + t == s;
    } else {
      var front := t[..|t| - 1];
      assert (s + t)[..|s + t| - 1] == s + front;
      FilterAppend(s, front, keep);
    }
  }

  lemma {:induction false} FilterAll<T(!new)>(s: seq<T>, keep: T -> bool)
    requires forall x | x in s :: keep(x)
    ensures Filter(s, keep) == s
  {
    if s != [] { FilterAll(s[..|s| - 1], keep); }
  }

  lemma FilterNone<T(!new)>(s: seq<T>, keep: T -> bool)
    requires forall x | x in s :: !keep(x)
    ensures Filter(s, keep) == []
  {
    if Filter(s, keep) != [] { assert Filter(s, keep)[0] in Filter(s, keep); }
  }
}
