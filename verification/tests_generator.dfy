/** The stub generator: for every public class of a compilation unit, one
    generated unit holding a `[TestFixture]` class with one failing `[Test]`
    stub per public method. The generator is a pure function of the unit: the
    `IdIndex` counter is local to one call, so nothing carries over between
    calls. */
module TestsGenerator {
  import opened Wrappers
  import opened SourceTree
  import opened GeneratedTree
  import opened MethodOrder
  import opened Identifiers

  /** The fixed usings added after the source's own. */
  const BaseUsings: seq<string> :=
    ["System", "System.Collections.Generic", "System.Linq", "System.Text", "NUnit.Framework"]

  /** A using directive for a namespace declaration: it names the namespace. */
  function GetClassUsing(ns: string): (r: string)
    ensures r == ns
  {
    ns
  }

  /** The using list every generated unit gets: the source's usings in
      order, then the fixed five, then one per namespace declaration in
      order. Nothing is deduplicated. */
  function TestUsings(u: SourceUnit): (r: seq<string>)
    ensures |r| == |u.usings| + |BaseUsings| + |u.namespaces|
    ensures r[..|u.usings|] == u.usings
    ensures r[|u.usings|..|u.usings| + |BaseUsings|] == BaseUsings
    ensures forall k :: 0 <= k < |u.namespaces| ==> r[|u.usings| + |BaseUsings| + k] == u.namespaces[k]
  {
    u.usings + BaseUsings + seq(|u.namespaces|, k requires 0 <= k < |u.namespaces| => GetClassUsing(u.namespaces[k]))
  }

  /** No using is dropped or merged: each name occurs as often as it occurs
      among the source usings, the fixed five and the namespaces together. */
  lemma UsingsKeepDuplicates(u: SourceUnit)
    ensures multiset(TestUsings(u)) == multiset(u.usings) + multiset(BaseUsings) + multiset(u.namespaces)
  {
    var r := TestUsings(u);
    var a := |u.usings| + |BaseUsings|;
    assert r == r[..|u.usings|] + r[|u.usings|..a] + r[a..];
    assert r[a..] == u.namespaces;
  }

  /** The namespace of a fixture: `<ns>.Tests` when the class sits directly
      in namespace `ns`, plain `Tests` otherwise. */
  function FixtureNamespace(parent: Option<string>): (r: string)
    ensures |r| >= 5 && r[|r| - 5..] == "Tests"
  {
    match parent
    case None => "Tests"
    case Some(ns) => ns + ".Tests"
  }

  /** Reads the source namespace back off a fixture namespace. */
  function SourceNamespaceOf(fixtureNs: string): Option<string> {
    if |fixtureNs| >= 6 && fixtureNs[|fixtureNs| - 6..] == ".Tests" then Some(fixtureNs[..|fixtureNs| - 6])
    else None
  }

  /** The fixture namespace determines the source class's namespace parent:
      distinct parents never share a fixture namespace. */
  lemma FixtureNamespaceRoundTrip(parent: Option<string>)
    ensures SourceNamespaceOf(FixtureNamespace(parent)) == parent
  {
    match parent
    case None =>
    case Some(ns) =>
      var r := ns + ".Tests";
      assert r[|r| - 6..] == ".Tests";
      assert r[..|r| - 6] == ns;
  }

  /** The call `Assert.Fail("autogenerated")` every stub consists of. */
  const FailCall := Invocation("Assert", "Fail", "autogenerated")

  /** The shape of every stub: `[Test]`, `void`, no parameters, and a body
      that fails with the marker message. */
  predicate IsStub(t: TestMethod) {
    && t.attributes == ["Test"]
    && t.returnType == "void"
    && t.parameters == []
    && t.body == [FailCall]
  }

  /** The methods that receive stubs, in stub order. */
  function EligibleMethods(c: ClassDecl): (r: seq<MethodDecl>)
    ensures multiset(r) == multiset(PublicMethods(c.methods))
    ensures SortedByName(r)
  {
    SortByName(PublicMethods(c.methods))
  }

  lemma EligibleAreSourcePublic(c: ClassDecl, i: int)
    requires 0 <= i < |EligibleMethods(c)|
    ensures EligibleMethods(c)[i] in c.methods && IsPublic(EligibleMethods(c)[i].modifiers)
  {
    var m := EligibleMethods(c)[i];
    assert m in multiset(EligibleMethods(c));
    assert multiset(PublicMethods(c.methods))[m] > 0;
    assert m in multiset(c.methods);
  }

  /** One stub per public method, in ordinal name order; the stub copies the
      source method's modifiers and is named by the `IdIndex` rule. */
  function CreateTestMethods(c: ClassDecl): (r: seq<TestMethod>)
    ensures |r| == |PublicMethods(c.methods)|
    ensures forall i :: 0 <= i < |r| ==> IsStub(r[i]) && IsPublic(r[i].modifiers)
    ensures forall i :: 0 <= i < |r| ==>
      && r[i].modifiers == EligibleMethods(c)[i].modifiers
      && r[i].name == TestName(Names(EligibleMethods(c)), i)
  {
    var ms := EligibleMethods(c);
    assert |ms| == |multiset(ms)| == |PublicMethods(c.methods)|;
    forall i | 0 <= i < |ms|
      ensures IsPublic(ms[i].modifiers)
    {
      EligibleAreSourcePublic(c, i);
    }
    seq(|ms|, i requires 0 <= i < |ms| =>
      TestMethod(["Test"], ms[i].modifiers, "void", TestName(Names(ms), i), [], [FailCall]))
  }

  /** The namespace declaration holding the public `[TestFixture]` class
      `<Class>_Tests` with the class's stubs. */
  function CreateTestClass(c: ClassDecl): (ns: TestNamespace)
    ensures ns.name == FixtureNamespace(c.parent)
    ensures ns.fixture.attributes == ["TestFixture"] && ns.fixture.modifiers == [Public]
    ensures ns.fixture.name == c.name + "_Tests"
    ensures ns.fixture.members == CreateTestMethods(c)
  {
    TestNamespace(FixtureNamespace(c.parent), TestClass(["TestFixture"], [Public], c.name + "_Tests", CreateTestMethods(c)))
  }

  /** The indices, from `k` on, of the public classes, ascending: every
      public class appears once and nothing else does. */
  function PublicIndicesFrom(cs: seq<ClassDecl>, k: nat): (idx: seq<nat>)
    requires k <= |cs|
    ensures forall t :: 0 <= t < |idx| ==> k <= idx[t] < |cs| && IsPublic(cs[idx[t]].modifiers)
    ensures forall t, t' :: 0 <= t < t' < |idx| ==> idx[t] < idx[t']
    ensures forall p :: k <= p < |cs| && IsPublic(cs[p].modifiers) ==> p in idx
    decreases |cs| - k
  {
    if k == |cs| then []
    else if IsPublic(cs[k].modifiers) then [k] + PublicIndicesFrom(cs, k + 1)
    else PublicIndicesFrom(cs, k + 1)
  }

  function PublicClassIndices(cs: seq<ClassDecl>): seq<nat> {
    PublicIndicesFrom(cs, 0)
  }

  /** One `TestInfo` per public class, in document order: entry `i` belongs
      to the class at index `PublicClassIndices(...)[i]`, is named
      `<Class>_Test`, and holds the shared usings and that class's fixture. */
  function Generate(u: SourceUnit): (r: seq<TestInfo>)
    ensures |r| == |PublicClassIndices(u.classes)|
    ensures forall i :: 0 <= i < |r| ==>
      var c := u.classes[PublicClassIndices(u.classes)[i]];
      && r[i].name == c.name + "_Test"
      && r[i].content == GeneratedUnit(TestUsings(u), [CreateTestClass(c)])
  {
    var idx := PublicClassIndices(u.classes);
    var usings := TestUsings(u);
    seq(|idx|, i requires 0 <= i < |idx| =>
      TestInfo(u.classes[idx[i]].name + "_Test", GeneratedUnit(usings, [CreateTestClass(u.classes[idx[i]])])))
  }

  /** The number of public classes, counted directly. */
  function CountPublic(cs: seq<ClassDecl>): nat {
    if cs == [] then 0
    else (if IsPublic(cs[0].modifiers) then 1 else 0) + CountPublic(cs[1..])
  }

  lemma {:induction false} PublicIndicesCount(cs: seq<ClassDecl>, k: nat)
    requires k <= |cs|
    ensures |PublicIndicesFrom(cs, k)| == CountPublic(cs[k..])
    decreases |cs| - k
  {
    if k < |cs| {
      PublicIndicesCount(cs, k + 1);
      assert cs[k..][1..] == cs[k + 1..];
    }
  }

  /** As many generated files as public classes, whatever else the classes
      carry (a `public static` class counts). */
  lemma GenerateCount(u: SourceUnit)
    ensures |Generate(u)| == CountPublic(u.classes)
  {
    PublicIndicesCount(u.classes, 0);
    assert u.classes[0..] == u.classes;
  }

  /** Nothing is generated exactly when no class is public. */
  lemma GenerateEmptyIffNoPublicClass(u: SourceUnit)
    ensures Generate(u) == [] <==> forall k :: 0 <= k < |u.classes| ==> !IsPublic(u.classes[k].modifiers)
  {
    var idx := PublicClassIndices(u.classes);
    if idx != [] {
      assert IsPublic(u.classes[idx[0]].modifiers);
    }
  }

  /** All generated units of one call carry the very same usings. */
  lemma GenerateSharesUsings(u: SourceUnit)
    ensures forall i, j :: 0 <= i < j < |Generate(u)| ==> Generate(u)[i].content.usings == Generate(u)[j].content.usings
  {
  }

  /** A generated file is named `<Class>_Test` while its fixture is
      `<Class>_Tests`: one letter apart. */
  lemma FileNameAndFixtureName(u: SourceUnit, i: int)
    requires 0 <= i < |Generate(u)|
    ensures |Generate(u)[i].content.members| == 1
    ensures Generate(u)[i].content.members[0].fixture.name == Generate(u)[i].name + "s"
  {
  }

  /** Every method of every generated fixture is a public failing stub. */
  lemma GenerateOnlyStubs(u: SourceUnit)
    ensures forall i, t :: 0 <= i < |Generate(u)| && 0 <= t < |Generate(u)[i].content.members[0].fixture.members| ==>
      var m := Generate(u)[i].content.members[0].fixture.members[t];
      IsStub(m) && IsPublic(m.modifiers)
  {
  }

  // ----- Naming of the stubs in terms of the source methods -----

  /** The stub names depend only on which methods the class declares, not on
      the order it declares them in. */
  lemma StubNamesIndependentOfOrder(c1: ClassDecl, c2: ClassDecl)
    requires multiset(c1.methods) == multiset(c2.methods)
    ensures |CreateTestMethods(c1)| == |CreateTestMethods(c2)|
    ensures forall i :: 0 <= i < |CreateTestMethods(c1)| ==> CreateTestMethods(c1)[i].name == CreateTestMethods(c2)[i].name
  {
    EligibleNamesIndependentOfOrder(c1, c2);
    var ns := Names(EligibleMethods(c1));
    forall i | 0 <= i < |CreateTestMethods(c1)|
      ensures CreateTestMethods(c1)[i].name == CreateTestMethods(c2)[i].name
    {
      assert CreateTestMethods(c1)[i].name == TestName(ns, i);
    }
  }

  /** Filtering keeps permutations permutations. */
  lemma PublicMethodsPermutation(a: seq<MethodDecl>, b: seq<MethodDecl>)
    requires multiset(a) == multiset(b)
    ensures multiset(PublicMethods(a)) == multiset(PublicMethods(b))
  {
    forall m
      ensures multiset(PublicMethods(a))[m] == multiset(PublicMethods(b))[m]
    {
    }
  }

  lemma EligibleNamesIndependentOfOrder(c1: ClassDecl, c2: ClassDecl)
    requires multiset(c1.methods) == multiset(c2.methods)
    ensures Names(EligibleMethods(c1)) == Names(EligibleMethods(c2))
  {
    PublicMethodsPermutation(c1.methods, c2.methods);
    SortedPermutationsAgreeOnNames(EligibleMethods(c1), EligibleMethods(c2));
  }

  /** The names of the public methods, with multiplicity. */
  function PublicNames(c: ClassDecl): multiset<string> {
    multiset(Names(PublicMethods(c.methods)))
  }

  lemma StubNamesHaveSourceCounts(c: ClassDecl)
    ensures multiset(Names(EligibleMethods(c))) == PublicNames(c)
  {
    NamesMultiset(EligibleMethods(c), PublicMethods(c.methods));
  }

  /** Three equal names in a row occur three times. */
  lemma TripleCount(s: seq<string>, i: int)
    ensures 0 <= i && i + 2 < |s| && s[i] == s[i + 1] && s[i] == s[i + 2] ==> multiset(s)[s[i]] >= 3
  {
    if 0 <= i && i + 2 < |s| {
      assert s == s[..i] + [s[i], s[i + 1], s[i + 2]] + s[i + 3..];
    }
  }

  /** Sorting by name makes equal names contiguous. */
  lemma SortedIsGrouped(ms: seq<MethodDecl>)
    requires SortedByName(ms)
    ensures Grouped(Names(ms))
  {
    forall i, k, j | 0 <= i <= k <= j < |ms| && Names(ms)[i] == Names(ms)[j]
      ensures Names(ms)[k] == Names(ms)[i]
    {
      SortedGroupsEqualNames(ms, i, k, j);
    }
  }

  /** No public method name is declared more than twice. */
  predicate AtMostTwoOverloads(c: ClassDecl) {
    forall n :: n in PublicNames(c) ==> PublicNames(c)[n] <= 2
  }

  /** No public method name is another public method name followed by `_0`
      or `_1`. */
  predicate NoSuffixedNameClash(c: ClassDecl) {
    forall m1, m2 :: m1 in c.methods && m2 in c.methods && IsPublic(m1.modifiers) && IsPublic(m2.modifiers) ==>
      m1.name != m2.name + "_0" && m1.name != m2.name + "_1"
  }

  /** The stubs of a class have pairwise distinct names when no public name
      is overloaded more than twice and no public name looks like another one
      plus a suffix. */
  lemma StubNamesDistinct(c: ClassDecl)
    requires AtMostTwoOverloads(c) && NoSuffixedNameClash(c)
    ensures forall i, j :: 0 <= i < j < |CreateTestMethods(c)| ==>
      CreateTestMethods(c)[i].name != CreateTestMethods(c)[j].name
  {
    var ms := EligibleMethods(c);
    var names := Names(ms);
    StubNamesHaveSourceCounts(c);
    SortedIsGrouped(ms);
    forall i | 0 <= i < |names| - 2
      ensures !(names[i] == names[i + 1] && names[i] == names[i + 2])
    {
      TripleCount(names, i);
    }
    forall i, j | 0 <= i < |names| && 0 <= j < |names|
      ensures names[i] != names[j] + "_0" && names[i] != names[j] + "_1"
    {
      EligibleAreSourcePublic(c, i);
      EligibleAreSourcePublic(c, j);
    }
    TestNamesDistinct(names);
  }

  /** A public name declared three or more times makes two stubs clash. */
  lemma ThreeOverloadsCollide(c: ClassDecl, n: string) returns (i: int)
    requires PublicNames(c)[n] >= 3
    ensures 0 <= i && i + 1 < |CreateTestMethods(c)|
    ensures CreateTestMethods(c)[i].name == CreateTestMethods(c)[i + 1].name
  {
    var ms := EligibleMethods(c);
    StubNamesHaveSourceCounts(c);
    SortedIsGrouped(ms);
    i := ThreeOccurrencesCollide(Names(ms), n);
  }
}
