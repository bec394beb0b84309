/** The three sample programs the repository's generator tests feed in,
    as declaration trees, and what the generator makes of them. */
module SampleSources {
  import opened Wrappers
  import opened SourceTree
  import opened GeneratedTree
  import opened MethodOrder
  import opened Identifiers
  import opened TestsGenerator

  /** `namespace HelloWorld { public class Program { public static Main; public GetRandom } }` */
  const ProgramClass := ClassDecl("Program", [Public], Some("HelloWorld"),
    [MethodDecl("Main", [Public, Static]), MethodDecl("GetRandom", [Public])])

  /** `namespace WantSleep { public class Sleep { public static Main; public SomeSleep; private Bed } }` */
  const SleepClass := ClassDecl("Sleep", [Public], Some("WantSleep"),
    [MethodDecl("Main", [Public, Static]), MethodDecl("SomeSleep", [Public]), MethodDecl("Bed", [Private])])

  /** `namespace One.AnotherOne.AndAnotherOne { public static class One { Another; AndAnother x2 } }` */
  const OneClass := ClassDecl("One", [Public, Static], Some("One.AnotherOne.AndAnotherOne"),
    [MethodDecl("Another", [Public]), MethodDecl("AndAnother", [Public]), MethodDecl("AndAnother", [Public])])

  const Program3 := SourceUnit([], ["One.AnotherOne.AndAnotherOne"], [OneClass])

  const AllThree := SourceUnit([], ["HelloWorld", "WantSleep", "One.AnotherOne.AndAnotherOne"],
    [ProgramClass, SleepClass, OneClass])

  const AndAnother := MethodDecl("AndAnother", [Public])
  const Another := MethodDecl("Another", [Public])

  /** Ordinally, `Another` sorts after `AndAnother` (`o` > `d`). */
  lemma AnotherAfterAndAnother()
    ensures !Ordinal.Leq("Another", "AndAnother")
  {
    assert "Another"[1..] == "nother" && "AndAnother"[1..] == "ndAnother";
    assert "nother"[1..] == "other" && "ndAnother"[1..] == "dAnother";
    assert Ordinal.Compare("other", "dAnother") == 1;
  }

  /** A class whose methods are all public keeps every one of them. */
  lemma {:induction false} AllPublicKept(ms: seq<MethodDecl>)
    requires forall i :: 0 <= i < |ms| ==> IsPublic(ms[i].modifiers)
    ensures PublicMethods(ms) == ms
  {
    if ms != [] {
      AllPublicKept(ms[1..]);
      assert ms == [ms[0]] + ms[1..];
    }
  }

  lemma OneClassAllPublic()
    ensures PublicMethods(OneClass.methods) == [Another, AndAnother, AndAnother]
  {
    AllPublicKept(OneClass.methods);
  }

  lemma SortSingle(m: MethodDecl)
    ensures SortByName([m]) == [m]
  {
    assert [m][1..] == [];
  }

  /** Two methods already in order stay in order. */
  lemma SortOrderedPair(a: MethodDecl, b: MethodDecl)
    requires Ordinal.Leq(a.name, b.name)
    ensures SortByName([a, b]) == [a, b]
  {
    assert [a, b][1..] == [b];
    SortSingle(b);
  }

  lemma SortOverloadPair()
    ensures SortByName([AndAnother, AndAnother]) == [AndAnother, AndAnother]
  {
    Ordinal.LeqReflexive(AndAnother.name);
    SortOrderedPair(AndAnother, AndAnother);
  }

  /** A method sorting after both of a pair goes to the end. */
  lemma InsertLast(x: MethodDecl, a: MethodDecl, b: MethodDecl)
    requires !Ordinal.Leq(x.name, a.name) && !Ordinal.Leq(x.name, b.name)
    ensures Insert(x, [a, b]) == [a, b, x]
  {
    InsertAfterOne(x, b);
    assert [a, b][1..] == [b];
    assert Insert(x, [a, b]) == [a] + [b, x];
  }

  lemma InsertAfterOne(x: MethodDecl, b: MethodDecl)
    requires !Ordinal.Leq(x.name, b.name)
    ensures Insert(x, [b]) == [b, x]
  {
    assert [b][1..] == [];
    assert Insert(x, [b]) == [b] + [x];
  }

  lemma InsertAnother()
    ensures Insert(Another, [AndAnother, AndAnother]) == [AndAnother, AndAnother, Another]
  {
    AnotherAfterAndAnother();
    InsertLast(Another, AndAnother, AndAnother);
  }

  lemma SortThree(x: MethodDecl, a: MethodDecl, b: MethodDecl)
    ensures SortByName([x, a, b]) == Insert(x, SortByName([a, b]))
  {
    assert [x, a, b][1..] == [a, b];
  }

  lemma OneClassSorted()
    ensures EligibleMethods(OneClass) == [AndAnother, AndAnother, Another]
  {
    OneClassAllPublic();
    SortThree(Another, AndAnother, AndAnother);
    SortOverloadPair();
    InsertAnother();
  }

  const OneNames: seq<string> := ["AndAnother", "AndAnother", "Another"]

  lemma OneNamesIdentifiers()
    ensures TestName(OneNames, 0) == "AndAnother_0_Test"
    ensures TestName(OneNames, 1) == "AndAnother_1_Test"
    ensures TestName(OneNames, 2) == "Another_Test"
  {
    PairThenLone(OneNames);
    assert OneNames[0] == "AndAnother" && OneNames[2] == "Another";
    OneNamesSpelling();
  }

  lemma OneNamesSpelling()
    ensures "AndAnother" + "_0_Test" == "AndAnother_0_Test"
    ensures "AndAnother" + "_1_Test" == "AndAnother_1_Test"
    ensures "Another" + "_Test" == "Another_Test"
  {
  }

  /** An overload pair followed by a different name. */
  lemma PairThenLone(names: seq<string>)
    requires |names| == 3 && names[0] == names[1] && names[2] != names[1]
    ensures TestName(names, 0) == names[0] + "_0_Test"
    ensures TestName(names, 1) == names[0] + "_1_Test"
    ensures TestName(names, 2) == names[2] + "_Test"
  {
    OverloadPairNames(names, 0);
    LoneNameUnsuffixed(names, 2);
  }

  lemma NamesOfThree(a: MethodDecl, b: MethodDecl, c: MethodDecl)
    ensures Names([a, b, c]) == [a.name, b.name, c.name]
  {
  }

  lemma OneClassNames()
    ensures Names(EligibleMethods(OneClass)) == OneNames
  {
    OneClassSorted();
    NamesOfThree(AndAnother, AndAnother, Another);
  }

  /** The stub names of a class, given the sorted public names. */
  lemma StubNamesFromSortedNames(c: ClassDecl, names: seq<string>)
    requires Names(EligibleMethods(c)) == names
    ensures |CreateTestMethods(c)| == |names|
    ensures forall i :: 0 <= i < |names| ==> CreateTestMethods(c)[i].name == TestName(names, i)
  {
    assert |EligibleMethods(c)| == |PublicMethods(c.methods)| by {
      assert |EligibleMethods(c)| == |multiset(EligibleMethods(c))|;
    }
  }

  lemma OneClassStubNames()
    ensures |CreateTestMethods(OneClass)| == 3
    ensures CreateTestMethods(OneClass)[0].name == "AndAnother_0_Test"
    ensures CreateTestMethods(OneClass)[1].name == "AndAnother_1_Test"
    ensures CreateTestMethods(OneClass)[2].name == "Another_Test"
  {
    OneClassNames();
    StubNamesFromSortedNames(OneClass, OneNames);
    OneNamesIdentifiers();
  }

  /** The generated entry for the `i`-th public class, given which class
      that is. */
  lemma GeneratedEntry(u: SourceUnit, i: int, c: ClassDecl)
    requires 0 <= i < |PublicClassIndices(u.classes)|
    requires u.classes[PublicClassIndices(u.classes)[i]] == c
    ensures i < |Generate(u)|
    ensures Generate(u)[i].name == c.name + "_Test"
    ensures Generate(u)[i].content.usings == TestUsings(u)
    ensures Generate(u)[i].content.members == [CreateTestClass(c)]
  {
  }

  lemma Program3Indices()
    ensures PublicClassIndices(Program3.classes) == [0]
  {
    assert IsPublic(OneClass.modifiers);
    assert PublicIndicesFrom([OneClass], 1) == [];
  }

  /** The overload test: one generated file for the static class `One`, in
      `One.AnotherOne.AndAnotherOne.Tests`, whose stubs start with
      `AndAnother_0_Test` and `AndAnother_1_Test`. */
  lemma OverloadSample(u: SourceUnit)
    requires u == Program3
    ensures |Generate(u)| == 1
    ensures Generate(u)[0].name == "One_Test"
    ensures Generate(u)[0].content.members[0].name == "One.AnotherOne.AndAnotherOne.Tests"
    ensures |Generate(u)[0].content.members[0].fixture.members| == 3
    ensures Generate(u)[0].content.members[0].fixture.members[0].name == "AndAnother_0_Test"
    ensures Generate(u)[0].content.members[0].fixture.members[1].name == "AndAnother_1_Test"
  {
    Program3Indices();
    GeneratedEntry(u, 0, OneClass);
    OneClassStubNames();
    OneClassSpelling();
  }

  lemma OneClassSpelling()
    ensures OneClass.name + "_Test" == "One_Test"
    ensures FixtureNamespace(OneClass.parent) == "One.AnotherOne.AndAnotherOne.Tests"
  {
  }

  lemma AllThreeIndices()
    ensures PublicClassIndices(AllThree.classes) == [0, 1, 2]
  {
    var cs := AllThree.classes;
    assert IsPublic(cs[0].modifiers) && IsPublic(cs[1].modifiers) && IsPublic(cs[2].modifiers);
    assert PublicIndicesFrom(cs, 3) == [];
    assert PublicIndicesFrom(cs, 2) == [2];
    assert PublicIndicesFrom(cs, 1) == [1, 2];
  }

  lemma ProgramPublicMethods()
    ensures |PublicMethods(ProgramClass.methods)| == 2
  {
    var ms := ProgramClass.methods;
    assert PublicMethods(ms[2..]) == [];
    assert PublicMethods(ms[1..]) == ms[1..];
  }

  lemma SleepPublicMethods()
    ensures |PublicMethods(SleepClass.methods)| == 2
  {
    var ms := SleepClass.methods;
    assert !IsPublic(ms[2].modifiers);
    assert PublicMethods(ms[3..]) == [];
    assert PublicMethods(ms[2..]) == [];
    assert PublicMethods(ms[1..]) == [ms[1]];
  }

  lemma ProgramAndSleepCounts()
    ensures |CreateTestMethods(ProgramClass)| == 2
    ensures |CreateTestMethods(SleepClass)| == 2
  {
    ProgramPublicMethods();
    SleepPublicMethods();
  }

  lemma AllThreeUsings()
    ensures TestUsings(AllThree) == BaseUsings + ["HelloWorld", "WantSleep", "One.AnotherOne.AndAnotherOne"]
  {
  }

  /** The count tests: three fixtures for the three programs and seven stubs
      in all (two each for `Program` and `Sleep`, whose private `Bed` gets
      none, and three for `One`), every file with usings for the three
      namespaces after the fixed five. */
  lemma CombinedSample(u: SourceUnit)
    requires u == AllThree
    ensures |Generate(u)| == 3
    ensures |Generate(u)[0].content.members[0].fixture.members|
          + |Generate(u)[1].content.members[0].fixture.members|
          + |Generate(u)[2].content.members[0].fixture.members| == 7
    ensures forall i :: 0 <= i < 3 ==>
      Generate(u)[i].content.usings == BaseUsings + ["HelloWorld", "WantSleep", "One.AnotherOne.AndAnotherOne"]
  {
    CombinedFileCount(u);
    SevenStubs(u);
    CombinedUsings(u);
  }

  lemma CombinedFileCount(u: SourceUnit)
    requires u == AllThree
    ensures |Generate(u)| == 3
  {
    AllThreeIndices();
  }

  /** The methods test: the three generated fixtures hold seven stubs in all. */
  lemma SevenStubs(u: SourceUnit)
    requires u == AllThree
    ensures |Generate(u)| == 3
    ensures |Generate(u)[0].content.members[0].fixture.members|
          + |Generate(u)[1].content.members[0].fixture.members|
          + |Generate(u)[2].content.members[0].fixture.members| == 7
  {
    AllThreeIndices();
    FixtureSizes(u, ProgramClass, SleepClass, OneClass);
    ClassStubCounts();
  }

  /** With three public classes, the three fixtures hold their stubs. */
  lemma FixtureSizes(u: SourceUnit, c0: ClassDecl, c1: ClassDecl, c2: ClassDecl)
    requires PublicClassIndices(u.classes) == [0, 1, 2]
    requires |u.classes| == 3 && u.classes[0] == c0 && u.classes[1] == c1 && u.classes[2] == c2
    ensures |Generate(u)| == 3
    ensures |Generate(u)[0].content.members[0].fixture.members| == |CreateTestMethods(c0)|
    ensures |Generate(u)[1].content.members[0].fixture.members| == |CreateTestMethods(c1)|
    ensures |Generate(u)[2].content.members[0].fixture.members| == |CreateTestMethods(c2)|
  {
    GeneratedEntry(u, 0, c0);
    GeneratedEntry(u, 1, c1);
    GeneratedEntry(u, 2, c2);
  }

  lemma ClassStubCounts()
    ensures |CreateTestMethods(ProgramClass)| + |CreateTestMethods(SleepClass)| + |CreateTestMethods(OneClass)| == 7
  {
    ProgramAndSleepCounts();
    OneClassStubNames();
  }

  lemma CombinedUsings(u: SourceUnit)
    requires u == AllThree
    ensures forall i :: 0 <= i < |Generate(u)| ==>
      Generate(u)[i].content.usings == BaseUsings + ["HelloWorld", "WantSleep", "One.AnotherOne.AndAnotherOne"]
  {
    AllThreeUsings();
  }
}
