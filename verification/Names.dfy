/**
 Task names and their order.

 Names are compared character by character, which for code points is the order
 Rust gives to `String`.  `Sort` stands for `Vec::sort`, and `SortedSeq` for the
 key order in which a `BTreeMap` or `BTreeSet` is walked.
 */
module Names {

  /** Strict lexicographic order. */
  predicate Less(a: string, b: string) {
    if b == [] then false
    else if a == [] then true
    else a[0] < b[0] || (a[0] == b[0] && Less(a[1..], b[1..]))
  }

  predicate Leq(a: string, b: string) {
    a == b || Less(a, b)
  }

  lemma {:induction false} LessIrreflexive(a: string)
    ensures !Less(a, a)
  {
    if a != [] { LessIrreflexive(a[1..]); }
  }

  lemma {:induction false} LessTransitive(a: string, b: string, c: string)
    requires Less(a, b) && Less(b, c)
    ensures Less(a, c)
  {
    if a != [] && a[0] == b[0] && b[0] == c[0] { LessTransitive(a[1..], b[1..], c[1..]); }
  }

  lemma {:induction false} LessTotal(a: string, b: string)
    ensures a == b || Less(a, b) || Less(b, a)
  {
    if a != [] && b != [] && a[0] == b[0] {
      LessTotal(a[1..], b[1..]);
      assert a == [a[0]] + a[1..] && b == [b[0]] + b[1..];
    }
  }

  /** The first difference is at `k`. */
  predicate DiffersAt(a: string, b: string, k: nat) {
    k < |a| && k < |b| && a[..k] == b[..k] && a[k] != b[k]
  }

  /** The order is decided by the first character that differs. */
  lemma {:induction false} FirstDifferenceDecides(a: string, b: string, k: nat)
    requires DiffersAt(a, b, k)
    ensures Less(a, b) <==> a[k] < b[k]
  {
    if k > 0 {
      assert a[0] == a[..k][0] == b[..k][0] == b[0];
      assert a[1..][..k - 1] == a[..k][1..] && b[1..][..k - 1] == b[..k][1..];
      FirstDifferenceDecides(a[1..], b[1..], k - 1);
    }
  }

  /** And a proper prefix comes first. */
  lemma {:induction false} PrefixIsLess(a: string, b: string)
    requires a < b
    ensures Less(a, b) && !Less(b, a)
  {
    if a != [] {
      assert b[..|a|] == a;
      assert b[1..][..|a| - 1] == a[1..];
      PrefixIsLess(a[1..], b[1..]);
    }
  }

  lemma LeqAntisymmetric(a: string, b: string)
    requires Leq(a, b) && Leq(b, a)
    ensures a == b
  {
    if a != b {
      LessTransitive(a, b, a);
      LessIrreflexive(a);
    }
  }

  predicate IsLeast(x: string, s: set<string>) {
    x in s && forall y :: y in s ==> Leq(x, y)
  }

  lemma {:induction false} LeastExists(s: set<string>)
    requires s != {}
    ensures exists x :: IsLeast(x, s)
    decreases s
  {
    var x :| x in s;
    var rest := s - {x};
    assert forall y :: y in s ==> y == x || y in rest;
    if rest == {} {
      assert IsLeast(x, s);
    } else {
      LeastExists(rest);
      var m :| IsLeast(m, rest);
      LessTotal(x, m);
      if Less(x, m) {
        forall y | y in s ensures Leq(x, y) {
          if y != x && y != m { LessTransitive(x, m, y); }
        }
        assert IsLeast(x, s);
      } else {
        assert IsLeast(m, s);
      }
    }
  }

  /** The first key a `BTreeSet` yields. */
  function Least(s: set<string>): (x: string)
    requires s != {}
    ensures IsLeast(x, s)
  {
    LeastExists(s);
    assert forall a, b :: IsLeast(a, s) && IsLeast(b, s) ==> a == b by {
      forall a, b | IsLeast(a, s) && IsLeast(b, s) ensures a == b { LeqAntisymmetric(a, b); }
    }
    var x :| IsLeast(x, s);
    x
  }

  predicate Ascending(s: seq<string>) {
    forall i, j :: 0 <= i < j < |s| ==> Leq(s[i], s[j])
  }

  predicate StrictlyAscending(s: seq<string>) {
    forall i, j :: 0 <= i < j < |s| ==> Less(s[i], s[j])
  }

  predicate NoDuplicates<T(==)>(s: seq<T>) {
    forall i, j :: 0 <= i < j < |s| ==> s[i] != s[j]
  }

  function Elements<T>(s: seq<T>): (r: set<T>) {
    set x | x in s
  }

  lemma PrependLeast(x: string, rest: seq<string>, s: set<string>)
    requires IsLeast(x, s) && Elements(rest) == s - {x}
    requires StrictlyAscending(rest) && NoDuplicates(rest)
    ensures Elements([x] + rest) == s
    ensures StrictlyAscending([x] + rest) && NoDuplicates([x] + rest)
  {
    var r := [x] + rest;
    assert Elements(r) == {x} + Elements(rest);
    forall y | y in rest ensures Less(x, y) { assert y in Elements(rest); }
    forall i, j | 0 <= i < j < |r| ensures Less(r[i], r[j]) && r[i] != r[j] {
      LessIrreflexive(r[i]);
    }
  }

  /** The keys of a sorted container, in iteration order. */
  function SortedSeq(s: set<string>): (r: seq<string>)
    ensures Elements(r) == s && |r| == |s|
    ensures NoDuplicates(r)
    decreases s
  {
    if s == {} then []
    else
      var x := Least(s);
      var rest := SortedSeq(s - {x});
      Prepended(x, rest, s);
      [x] + rest
  }

  lemma Prepended(x: string, rest: seq<string>, s: set<string>)
    requires x in s && Elements(rest) == s - {x} && |rest| == |s - {x}| && NoDuplicates(rest)
    ensures Elements([x] + rest) == s && |[x] + rest| == |s| && NoDuplicates([x] + rest)
  {
    assert Elements([x] + rest) == {x} + Elements(rest);
    assert forall y :: y in rest ==> y in Elements(rest);
  }

  lemma {:induction false} SortedSeqAscending(s: set<string>)
    ensures StrictlyAscending(SortedSeq(s))
    decreases s
  {
    if s != {} {
      var x := Least(s);
      SortedSeqAscending(s - {x});
      PrependLeast(x, SortedSeq(s - {x}), s);
    }
  }

  /** A strictly ascending sequence is determined by its elements. */
  lemma {:induction false} StrictlyAscendingUnique(a: seq<string>, b: seq<string>)
    requires StrictlyAscending(a) && StrictlyAscending(b)
    requires Elements(a) == Elements(b)
    ensures a == b
  {
    assert a != [] ==> a[0] in Elements(a);
    assert b != [] ==> b[0] in Elements(b);
    if a != [] && b != [] {
      HeadsAgree(a, b);
      var a', b' := a[1..], b[1..];
      assert Elements(a') == Elements(a) - {a[0]} by { TailElements(a); }
      assert Elements(b') == Elements(b) - {b[0]} by { TailElements(b); }
      StrictlyAscendingUnique(a', b');
      assert a == [a[0]] + a' && b == [b[0]] + b';
    }
  }

  lemma TailElements(a: seq<string>)
    requires a != [] && StrictlyAscending(a)
    ensures Elements(a[1..]) == Elements(a) - {a[0]}
  {
    assert a == [a[0]] + a[1..];
    if a[0] in a[1..] {
      var j :| 1 <= j < |a| && a[j] == a[0];
      LessIrreflexive(a[0]);
    }
  }

  lemma HeadsAgree(a: seq<string>, b: seq<string>)
    requires a != [] && b != []
    requires StrictlyAscending(a) && StrictlyAscending(b)
    requires Elements(a) == Elements(b)
    ensures a[0] == b[0]
  {
    assert a[0] in Elements(b) && b[0] in Elements(a);
    var i :| 0 <= i < |b| && b[i] == a[0];
    var j :| 0 <= j < |a| && a[j] == b[0];
    assert Leq(b[0], a[0]) && Leq(a[0], b[0]);
    LeqAntisymmetric(a[0], b[0]);
  }

  function Insert(x: string, s: seq<string>): (r: seq<string>)
    requires Ascending(s)
    ensures Ascending(r) && multiset(r) == multiset(s) + multiset{x}
  {
    if s == [] then [x]
    else if Leq(x, s[0]) then
      assert forall j :: 0 <= j < |s| ==> Leq(x, s[j]) by {
        forall j | 0 <= j < |s| ensures Leq(x, s[j]) {
          if x != s[0] && j > 0 && s[0] != s[j] { LessTransitive(x, s[0], s[j]); }
        }
      }
      [x] + s
    else
      LessTotal(x, s[0]);
      var rest := Insert(x, s[1..]);
      assert s == [s[0]] + s[1..];
      assert forall y :: y in rest ==> Leq(s[0], y) by {
        forall y | y in rest ensures Leq(s[0], y) { assert y in multiset(rest); }
      }
      [s[0]] + rest
  }

  /** `Vec::sort`. */
  function Sort(s: seq<string>): (r: seq<string>)
    ensures Ascending(r) && multiset(r) == multiset(s)
  {
    if s == [] then []
    else
      assert s == [s[0]] + s[1..];
      Insert(s[0], Sort(s[1..]))
  }

  lemma SortElements(s: seq<string>)
    ensures Elements(Sort(s)) == Elements(s) && |Sort(s)| == |s|
  {
    var r := Sort(s);
    assert |multiset(r)| == |multiset(s)|;
    forall x ensures x in r <==> x in s {
      assert x in r <==> x in multiset(r);
      assert x in s <==> x in multiset(s);
    }
  }

  lemma NoDuplicatesMultiset<T>(s: seq<T>)
    ensures NoDuplicates(s) <==> forall x :: x in multiset(s) ==> multiset(s)[x] == 1
  {
    if s != [] {
      NoDuplicatesMultiset(s[1..]);
      assert s == [s[0]] + s[1..];
      if NoDuplicates(s[1..]) && s[0] !in s[1..] {
        assert NoDuplicates(s);
      } else if s[0] in s[1..] {
        assert multiset(s)[s[0]] > 1;
      } else {
        var x :| x in multiset(s[1..]) && multiset(s[1..])[x] != 1;
        assert multiset(s)[x] != 1;
      }
    }
  }

  /** Sorting names that occur once each yields the set in key order. */
  lemma SortIsSortedSeq(s: seq<string>)
    requires NoDuplicates(s)
    ensures Sort(s) == SortedSeq(Elements(s))
  {
    var r := Sort(s);
    SortElements(s);
    NoDuplicatesMultiset(s);
    NoDuplicatesMultiset(r);
    assert NoDuplicates(r);
    SortedSeqAscending(Elements(s));
    StrictlyAscendingUnique(r, SortedSeq(Elements(s)));
  }

  lemma DistinctLength(s: seq<string>)
    requires NoDuplicates(s)
    ensures |s| == |Elements(s)|
  {
    if s != [] {
      var init := s[..|s| - 1];
      DistinctLength(init);
      assert s == init + [s[|s| - 1]];
      assert Elements(s) == Elements(init) + {s[|s| - 1]};
    }
  }

  lemma Associate<T>(a: seq<T>, b: seq<T>, c: seq<T>)
    ensures a + (b + c) == (a + b) + c
  {
  }

  lemma SameMap<K, V>(a: map<K, V>, b: map<K, V>)
    requires forall k :: (k in a <==> k in b) && (k in a && k in b ==> a[k] == b[k])
    ensures a == b
  {
  }

  lemma SubsetSize<T>(s: set<T>, t: set<T>)
    requires s <= t
    ensures |s| <= |t| && (s < t ==> |s| < |t|)
  {
    assert t == s + (t - s);
    assert |t| == |s| + |t - s|;
  }

  lemma LaterIsGreater(names: seq<string>, i: nat, j: nat)
    requires StrictlyAscending(names) && i <= j < |names|
    ensures Leq(names[i], names[j])
  {
    assert i < j ==> Less(names[i], names[j]);
  }
}
