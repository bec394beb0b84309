/** Which source methods receive a stub, and in what order: the public ones,
    sorted by name under the ordinal comparison. */
module MethodOrder {
  import opened Ordinal
  import opened SourceTree

  /** The public methods, in their original order. Every public declaration
      keeps its multiplicity, and nothing else survives. */
  function PublicMethods(ms: seq<MethodDecl>): (r: seq<MethodDecl>)
    ensures forall m :: multiset(r)[m] == if IsPublic(m.modifiers) then multiset(ms)[m] else 0
  {
    if ms == [] then []
    else
      assert ms == [ms[0]] + ms[1..];
      (if IsPublic(ms[0].modifiers) then [ms[0]] else []) + PublicMethods(ms[1..])
  }

  /** The method names, position by position. */
  function Names(ms: seq<MethodDecl>): seq<string> {
    seq(|ms|, i requires 0 <= i < |ms| => ms[i].name)
  }

  predicate SortedByName(ms: seq<MethodDecl>) {
    forall i, j :: 0 <= i < j < |ms| ==> Leq(ms[i].name, ms[j].name)
  }

  /** Insertion of `m` in front of the first element it does not sort after. */
  function Insert(m: MethodDecl, s: seq<MethodDecl>): (r: seq<MethodDecl>)
    ensures multiset(r) == multiset(s) + multiset{m}
  {
    if s == [] || Leq(m.name, s[0].name) then [m] + s
    else
      assert s == [s[0]] + s[1..];
      [s[0]] + Insert(m, s[1..])
  }

  /** Every element of a sequence sorts no earlier than `x`. */
  predicate AllAtLeast(x: string, s: seq<MethodDecl>) {
    forall j :: 0 <= j < |s| ==> Leq(x, s[j].name)
  }

  lemma AtLeastPermutation(x: string, s: seq<MethodDecl>, t: seq<MethodDecl>)
    requires AllAtLeast(x, s)
    requires multiset(t) <= multiset(s)
    ensures AllAtLeast(x, t)
  {
    forall j | 0 <= j < |t|
      ensures Leq(x, t[j].name)
    {
      assert t[j] in multiset(s);
      var k :| 0 <= k < |s| && s[k] == t[j];
    }
  }

  /** Putting an element no later than all of a sorted sequence in front
      keeps it sorted. */
  lemma ConsSorted(x: MethodDecl, rest: seq<MethodDecl>)
    requires SortedByName(rest) && AllAtLeast(x.name, rest)
    ensures SortedByName([x] + rest)
  {
    forall i, j | 0 <= i < j < |rest| + 1
      ensures Leq(([x] + rest)[i].name, ([x] + rest)[j].name)
    {
      if i > 0 {
        assert ([x] + rest)[i] == rest[i - 1];
      }
      assert ([x] + rest)[j] == rest[j - 1];
    }
  }

  /** An element no later than the head of a sorted sequence is no later
      than any of it. */
  lemma BelowHeadBelowAll(x: string, s: seq<MethodDecl>)
    requires SortedByName(s) && |s| > 0 && Leq(x, s[0].name)
    ensures AllAtLeast(x, s)
  {
    forall j | 0 <= j < |s|
      ensures Leq(x, s[j].name)
    {
      if j > 0 { LeqTransitive(x, s[0].name, s[j].name); }
    }
  }

  /** The head of a sorted sequence sorts no later than the rest of it, nor
      than an element that does not sort before it. */
  lemma HeadBelowTailAnd(m: MethodDecl, s: seq<MethodDecl>)
    requires SortedByName(s) && |s| > 0 && Leq(s[0].name, m.name)
    ensures AllAtLeast(s[0].name, [m] + s[1..])
  {
    forall j | 0 <= j < |s|
      ensures Leq(s[0].name, ([m] + s[1..])[j].name)
    {
      if j > 0 { assert ([m] + s[1..])[j] == s[j]; }
    }
  }

  lemma {:induction false} InsertSorted(m: MethodDecl, s: seq<MethodDecl>)
    requires SortedByName(s)
    ensures SortedByName(Insert(m, s))
    decreases |s|
  {
    if s == [] {
    } else if Leq(m.name, s[0].name) {
      BelowHeadBelowAll(m.name, s);
      ConsSorted(m, s);
    } else {
      LeqTotal(m.name, s[0].name);
      SortedTail(s);
      InsertSorted(m, s[1..]);
      var rest := Insert(m, s[1..]);
      HeadBelowTailAnd(m, s);
      assert multiset([m] + s[1..]) == multiset(rest);
      AtLeastPermutation(s[0].name, [m] + s[1..], rest);
      ConsSorted(s[0], rest);
    }
  }

  /** The `methods.Sort(...)` call: a permutation of its input, sorted by
      name. The model sorts stably; see `SortedPermutationsAgreeOnNames` for
      why the instability of the library sort does not change any name. */
  function SortByName(ms: seq<MethodDecl>): (r: seq<MethodDecl>)
    ensures multiset(r) == multiset(ms)
    ensures SortedByName(r)
  {
    if ms == [] then []
    else
      assert ms == [ms[0]] + ms[1..];
      InsertSorted(ms[0], SortByName(ms[1..]));
      Insert(ms[0], SortByName(ms[1..]))
  }

  /** In a name-sorted sequence, equal names are adjacent: everything between
      two equal names carries that name too. */
  lemma SortedGroupsEqualNames(ms: seq<MethodDecl>, i: int, k: int, j: int)
    requires SortedByName(ms)
    requires 0 <= i <= k <= j < |ms|
    requires ms[i].name == ms[j].name
    ensures ms[k].name == ms[i].name
  {
    if i < k < j {
      LeqAntisymmetric(ms[i].name, ms[k].name);
    }
  }

  /** Removing one element keeps a sequence sorted. */
  lemma SortedWithout(ms: seq<MethodDecl>, k: int)
    requires SortedByName(ms)
    requires 0 <= k < |ms|
    ensures SortedByName(ms[..k] + ms[k + 1..])
  {
    var r := ms[..k] + ms[k + 1..];
    forall i, j | 0 <= i < j < |r|
      ensures Leq(r[i].name, r[j].name)
    {
      var i' := if i < k then i else i + 1;
      var j' := if j < k then j else j + 1;
      assert r[i] == ms[i'] && r[j] == ms[j'];
    }
  }

  lemma SortedTail(ms: seq<MethodDecl>)
    requires SortedByName(ms) && |ms| > 0
    ensures SortedByName(ms[1..])
  {
    forall i, j | 0 <= i < j < |ms| - 1
      ensures Leq(ms[1..][i].name, ms[1..][j].name)
    {
      assert ms[1..][i] == ms[i + 1] && ms[1..][j] == ms[j + 1];
    }
  }

  /** Two sorted permutations of the same methods start with the same name. */
  lemma SortedPermutationsSameFirstName(a: seq<MethodDecl>, b: seq<MethodDecl>)
    requires multiset(a) == multiset(b)
    requires SortedByName(a) && SortedByName(b)
    requires |a| > 0
    ensures |b| > 0 && a[0].name == b[0].name
  {
    assert a[0] in multiset(b);
    var k :| 0 <= k < |b| && b[k] == a[0];
    assert b[0] in multiset(a);
    var k' :| 0 <= k' < |a| && a[k'] == b[0];
    LeqReflexive(a[0].name);
    LeqAntisymmetric(a[0].name, b[0].name);
  }

  /** Removing an element that carries the first name leaves the same names
      as removing the first element. */
  lemma NamesWithoutFirstOfGroup(b: seq<MethodDecl>, k: int)
    requires SortedByName(b)
    requires 0 <= k < |b| && b[k].name == b[0].name
    ensures Names(b[..k] + b[k + 1..]) == Names(b[1..])
  {
    var b' := b[..k] + b[k + 1..];
    forall t | 0 <= t < |b| - 1
      ensures Names(b')[t] == Names(b[1..])[t]
    {
      if t < k {
        SortedGroupsEqualNames(b, 0, t, k);
        SortedGroupsEqualNames(b, 0, t + 1, k);
      } else {
        assert b'[t] == b[t + 1];
      }
    }
  }

  lemma MultisetWithout(s: seq<MethodDecl>, k: int)
    requires 0 <= k < |s|
    ensures multiset(s[..k] + s[k + 1..]) == multiset(s) - multiset{s[k]}
  {
    assert s == s[..k] + [s[k]] + s[k + 1..];
  }

  lemma NamesConcat(a: seq<MethodDecl>, b: seq<MethodDecl>)
    ensures Names(a + b) == Names(a) + Names(b)
  {
  }

  lemma NamesCons(s: seq<MethodDecl>)
    requires |s| > 0
    ensures Names(s) == [s[0].name] + Names(s[1..])
  {
  }

  /** Removing the first of `a` and its copy in `b` keeps them permutations
      of each other. */
  lemma TailPermutation(a: seq<MethodDecl>, b: seq<MethodDecl>, k: int)
    requires multiset(a) == multiset(b)
    requires |a| > 0 && 0 <= k < |b| && b[k] == a[0]
    ensures multiset(a[1..]) == multiset(b[..k] + b[k + 1..])
  {
    MultisetWithout(b, k);
    assert a == [a[0]] + a[1..];
  }

  lemma NamesMultisetWithout(b: seq<MethodDecl>, k: int)
    requires 0 <= k < |b|
    ensures multiset(Names(b)) == multiset(Names(b[..k] + b[k + 1..])) + multiset{b[k].name}
  {
    assert b == (b[..k] + [b[k]]) + b[k + 1..];
    NamesConcat(b[..k] + [b[k]], b[k + 1..]);
    NamesConcat(b[..k], [b[k]]);
    NamesConcat(b[..k], b[k + 1..]);
  }

  /** Permuting methods permutes their names. */
  lemma {:induction false} NamesMultiset(a: seq<MethodDecl>, b: seq<MethodDecl>)
    requires multiset(a) == multiset(b)
    ensures multiset(Names(a)) == multiset(Names(b))
    decreases |a|
  {
    if |a| > 0 {
      assert a[0] in multiset(b);
      var k :| 0 <= k < |b| && b[k] == a[0];
      TailPermutation(a, b, k);
      NamesMultiset(a[1..], b[..k] + b[k + 1..]);
      NamesMultisetWithout(b, k);
      NamesCons(a);
      assert multiset(Names(a)) == multiset{a[0].name} + multiset(Names(a[1..]));
    }
  }

  /** Two name-sorted permutations of the same methods list the same names in
      the same order: the names (and hence the generated identifiers) depend
      only on which methods there are, not on their input order nor on how a
      sort orders equal names among themselves. */
  lemma {:induction false} SortedPermutationsAgreeOnNames(a: seq<MethodDecl>, b: seq<MethodDecl>)
    requires multiset(a) == multiset(b)
    requires SortedByName(a) && SortedByName(b)
    ensures Names(a) == Names(b)
    decreases |a|
  {
    if |a| == 0 {
      assert |b| == |multiset(b)| == 0;
    } else {
      SortedPermutationsSameFirstName(a, b);
      assert a[0] in multiset(b);
      var k :| 0 <= k < |b| && b[k] == a[0];
      var b' := b[..k] + b[k + 1..];
      MultisetWithout(b, k);
      MultisetWithout(a, 0);
      SortedWithout(b, k);
      SortedTail(a);
      SortedPermutationsAgreeOnNames(a[1..], b');
      NamesWithoutFirstOfGroup(b, k);
      NamesCons(a);
      NamesCons(b);
    }
  }
}
