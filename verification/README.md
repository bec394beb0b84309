# Test-stub generator and file pipeline, modelled in Dafny

The repository turns C# source files into NUnit test-stub files. For every
public class of a compilation unit, `TestsGenerator.Generate` emits one
compilation unit. That unit holds:

- the source's using directives, then five fixed usings
  (`System`, `System.Collections.Generic`, `System.Linq`, `System.Text`,
  `NUnit.Framework`), then one using per namespace declaration;
- a namespace `<ns>.Tests` (or plain `Tests` when the class does not sit
  directly in a namespace declaration);
- a public `[TestFixture]` class `<Class>_Tests` with one `[Test] void`
  stub per public method. Each stub's body is `Assert.Fail("autogenerated")`.

The stubs are ordered by ordinal name comparison and named by the `IdIndex`
loop: `<Name>[_<k>]_Test`. The `Pipeline` turns each generated `TestInfo`
into a file `<savePath>\<Name>.cs` (`ProcessFile`), and then writes the files
one after another (`WriteFile`).

The model works on the declaration tree rather than on text:

- `SourceTree` holds the parsed input: usings, namespaces, and classes with
  their modifiers, namespace parent and methods.
- `GeneratedTree` holds the syntax the generator builds.
- `Ordinal` is `string.Compare(..., StringComparison.Ordinal)`.
- `MethodOrder` is the public-method filter and the sort by name.
- `Identifiers` is the `IdIndex` loop and its analysis.
- `TestsGenerator` is `Generate`, `GetClassUsing`, `CreateTestClass` and
  `CreateTestMethods`.
- `Pipeline` is `ProcessFile` and `WriteFile`. The writes are modelled as a
  trace applied to a map from paths to contents.
- `SampleSources` holds the three sample programs of the repository's
  generator tests, and what the generator makes of them.

## Behaviour of the code worth knowing

- **Overload suffixes are 0, …, 0, 1.** The first branch of the loop resets
  `IdIndex` to 0 whenever the next name is equal, so in a run of k equal names
  every member but the last gets `_0` and the last gets `_1`
  (`Identifiers.RunSuffixes`). Three overloads therefore give two equal
  identifiers (`Identifiers.LongRunCollides`). The `IdIndex++` branch suggests
  a numbering by rank within the run. That numbering agrees with the loop only
  for runs of at most two (`Identifiers.WrittenMatchesIntendedIffShortRuns`),
  and it would keep every run apart (`Identifiers.IntendedNamesDistinct`).
- **Stubs get no parameters.** `MethodDeclaration(returnType, identificator)`
  (Core/TestsGenerator.cs:122) is given only attributes, modifiers and a body,
  so two overloads' stubs are told apart by their suffix alone.
- **Static classes are not excluded.** The only class filter is the `public`
  modifier (Core/TestsGenerator.cs:22), so `public static class One` gets a
  fixture.
- **The three sample programs give seven stubs.** `Program` and `Sleep` give
  two each (the private `Bed` gets none) and `One` gives three, as the
  repository's test expects (Tests/TestsGenerator.cs:54;
  `SampleSources.SevenStubs`).
- **The sort is unstable.** `List.Sort` does not keep the declaration order
  of equal names. The model sorts stably and proves that the generated names
  do not depend on which name-sorted order is chosen
  (`MethodOrder.SortedPermutationsAgreeOnNames`,
  `TestsGenerator.StubNamesIndependentOfOrder`).

## Model

| member | source | states |
|---|---|---|
| Ordinal.Compare | Core/TestsGenerator.cs:100-101 | the ordinal comparison yields -1, 0 or 1 |
| Ordinal.CompareZeroIffEqual | Core/TestsGenerator.cs:100-101 | two names compare equal exactly when they are the same string |
| Ordinal.CompareAntisymmetric | Core/TestsGenerator.cs:100-101 | swapping the arguments negates the comparison |
| Ordinal.LeqReflexive | Core/TestsGenerator.cs:100-101 | every name sorts no later than itself |
| Ordinal.LeqTotal | Core/TestsGenerator.cs:100-101 | any two names are ordered one way or the other |
| Ordinal.LeqAntisymmetric | Core/TestsGenerator.cs:100-101 | names ordered both ways are equal |
| Ordinal.LeqTransitive | Core/TestsGenerator.cs:100-101 | the order used by the sort is transitive |
| MethodOrder.PublicMethods | Core/TestsGenerator.cs:97-98 | each method occurs in the filtered list as often as in the class if it has the `public` modifier, and not at all otherwise |
| MethodOrder.SortByName | Core/TestsGenerator.cs:100-101 | the sorted list is a permutation of its input and ordered by ordinal name |
| MethodOrder.InsertSorted | Core/TestsGenerator.cs:100-101 | inserting into a name-ordered list keeps it ordered |
| MethodOrder.NamesMultiset | Core/TestsGenerator.cs:97-101 | permuting the methods permutes their names |
| MethodOrder.SortedPermutationsAgreeOnNames | Core/TestsGenerator.cs:100-101 | any two name-ordered permutations of the same methods have the same name sequence, so the unstable sort cannot change the names |
| Identifiers.DecimalString | Core/TestsGenerator.cs:119 | `IdIndex.ToString()` of a non-negative counter is a non-empty string of decimal digits |
| Identifiers.DecimalRoundTrip | Core/TestsGenerator.cs:119 | the decimal spelling reads back to the counter value |
| Identifiers.Suffix | Core/TestsGenerator.cs:107-118 | a position gets no suffix exactly when neither neighbour shares its name, suffix 0 exactly when its successor does, and suffix 1 exactly when it is the last of a run of two or more |
| Identifiers.TestName | Core/TestsGenerator.cs:119 | the identifier starts with the method name and ends in `_Test`, and is exactly `<Name>_Test` when no neighbour shares the name |
| Identifiers.NamePosition | Core/TestsGenerator.cs:107-119 | one pass of the loop body leaves the counter encoding the position's suffix and builds that position's identifier |
| Identifiers.AssignTestNames | Core/TestsGenerator.cs:103-119 | the `IdIndex` loop gives position i the identifier built from the name and its neighbours alone: `_0` for a same-named successor, otherwise `_1` for a same-named predecessor, otherwise none |
| Identifiers.LoneNameUnsuffixed | Core/TestsGenerator.cs:115-119 | a method with no same-named neighbour is named `<Name>_Test` |
| Identifiers.RunSuffixes | Core/TestsGenerator.cs:107-114 | in a run of two or more equal names every member but the last gets suffix 0 and the last gets 1 |
| Identifiers.OverloadPairNames | Core/TestsGenerator.cs:107-119 | two overloads are named `<Name>_0_Test` and `<Name>_1_Test` |
| Identifiers.LongRunCollides | Core/TestsGenerator.cs:107-119 | three equal names in a row give the first two the same identifier |
| Identifiers.LookalikeCollides | Core/TestsGenerator.cs:119 | methods `A`, `A`, `A_0` give two stubs named `A_0_Test` |
| Identifiers.WrittenMatchesIntendedIffShortRuns | Core/TestsGenerator.cs:103-119 | the loop's suffixes equal the rank within each run of equal names if and only if no name occurs three times in a row |
| Identifiers.TestNamesDistinct | Core/TestsGenerator.cs:103-119 | over grouped names with runs of at most two and no name equal to another plus `_0`/`_1`, all identifiers are pairwise distinct |
| Identifiers.IntendedNamesDistinct | Core/TestsGenerator.cs:111-113 | numbering by rank within the run would give grouped names pairwise distinct identifiers for runs of any length, unless a name is another name plus `_` and digits |
| Identifiers.ThreeOccurrencesCollide | Core/TestsGenerator.cs:100-119 | among grouped names, a name occurring three times yields two adjacent equal identifiers |
| TestsGenerator.GetClassUsing | Core/TestsGenerator.cs:42-45 | the using added for a namespace declaration names exactly that namespace |
| TestsGenerator.TestUsings | Core/TestsGenerator.cs:12-18 | the usings are the source usings in order, then the five fixed ones, then one per namespace declaration in order |
| TestsGenerator.UsingsKeepDuplicates | Core/TestsGenerator.cs:12-18 | no using is dropped or merged: the counts are the sum of the three parts' counts |
| TestsGenerator.FixtureNamespace | Core/TestsGenerator.cs:54-59 | every fixture namespace ends in `Tests` |
| TestsGenerator.FixtureNamespaceRoundTrip | Core/TestsGenerator.cs:54-59 | the source namespace parent can be read back off the fixture namespace, so distinct parents get distinct fixture namespaces |
| TestsGenerator.EligibleMethods | Core/TestsGenerator.cs:97-101 | the stubbed methods are a name-ordered permutation of the public methods |
| TestsGenerator.EligibleAreSourcePublic | Core/TestsGenerator.cs:97-98 | every stubbed method is a public method of the class |
| TestsGenerator.CreateTestMethods | Core/TestsGenerator.cs:79-129 | one stub per public method; each is `[Test] void`, has no parameters, fails with "autogenerated", copies its method's (public) modifiers, and carries the `IdIndex` name of its position in the sorted order |
| TestsGenerator.CreateTestClass | Core/TestsGenerator.cs:47-77 | the fixture is a public `[TestFixture]` class `<Class>_Tests` in the mirrored namespace, holding exactly the class's stubs |
| TestsGenerator.PublicIndicesFrom | Core/TestsGenerator.cs:21-22 | the selected class indices are ascending, each names a public class, and every public class is selected |
| TestsGenerator.Generate | Core/TestsGenerator.cs:5-39 | entry i belongs to the i-th public class in document order, is named `<Class>_Test`, and holds the shared usings and that class's fixture |
| TestsGenerator.GenerateCount | Core/TestsGenerator.cs:21-38 | the number of generated units equals the number of public classes |
| TestsGenerator.GenerateEmptyIffNoPublicClass | Core/TestsGenerator.cs:21-38 | nothing is generated if and only if no class is public |
| TestsGenerator.GenerateSharesUsings | Core/TestsGenerator.cs:12-33 | all units of one call carry the same usings |
| TestsGenerator.FileNameAndFixtureName | Core/TestsGenerator.cs:25-35 | each unit holds one namespace, and its fixture's name is the unit's name plus `s` |
| TestsGenerator.GenerateOnlyStubs | Core/TestsGenerator.cs:82-125 | every method of every generated fixture is a public failing stub |
| TestsGenerator.PublicMethodsPermutation | Core/TestsGenerator.cs:97-98 | reordering a class's methods only reorders its public methods |
| TestsGenerator.EligibleNamesIndependentOfOrder | Core/TestsGenerator.cs:97-101 | the sorted public names do not depend on declaration order |
| TestsGenerator.StubNamesIndependentOfOrder | Core/TestsGenerator.cs:97-119 | two classes declaring the same methods in any order get the same stub names |
| TestsGenerator.StubNamesHaveSourceCounts | Core/TestsGenerator.cs:97-101 | each name occurs among the sorted stubbed methods as often as among the public methods |
| TestsGenerator.SortedIsGrouped | Core/TestsGenerator.cs:100-101 | after sorting, equal names are contiguous |
| TestsGenerator.StubNamesDistinct | Core/TestsGenerator.cs:97-125 | stub names are pairwise distinct when no public name is declared more than twice and none equals another plus `_0`/`_1` |
| TestsGenerator.ThreeOverloadsCollide | Core/TestsGenerator.cs:97-125 | a public name declared three or more times gives two adjacent stubs the same name |
| Pipeline.OutputPath | Dataflow/Pipeline.cs:66 | the path is the save directory, a backslash, the test name and `.cs`, each at its place |
| Pipeline.OutputPathRoundTrip | Dataflow/Pipeline.cs:66 | the test name can be read back off its output path |
| Pipeline.OutputPathInjective | Dataflow/Pipeline.cs:66 | within one directory, two output paths are equal exactly when the test names are |
| Pipeline.FilesFor | Dataflow/Pipeline.cs:63-68 | one file per test, in order, at `<savePath>\<Name>.cs`, with the content unchanged |
| Pipeline.ProcessFile | Dataflow/Pipeline.cs:60-69 | as many files as public classes, each at its generated test's path with that test's content |
| Pipeline.OutputPathOfClass | Dataflow/Pipeline.cs:60-69 | the file of the i-th public class is `<savePath>\<Class>_Test.cs` |
| Pipeline.OutputPathsDistinctIffClassNamesDistinct | Dataflow/Pipeline.cs:66 | the output paths of one source are pairwise distinct if and only if its public classes have pairwise distinct names |
| Pipeline.WriteFile | Dataflow/Pipeline.cs:71-80 | one write per file, in array order, of that file's path and content |
| Pipeline.LastWriteWins | Dataflow/Pipeline.cs:73-78 | a path ends up holding the content of the last write to it |
| Pipeline.UnwrittenPathsKept | Dataflow/Pipeline.cs:73-78 | a path no write names keeps its presence and content |
| Pipeline.WritesLand | Dataflow/Pipeline.cs:71-80 | with distinct test names every file ends up holding its test's content, and unwritten paths are untouched |
| Pipeline.ProcessSource | Dataflow/Pipeline.cs:60-80 | one write per public class, none for a source without public classes; with distinct test names each class's file holds its unit; other paths are untouched |
| SampleSources.AnotherAfterAndAnother | Core/TestsGenerator.cs:100-101 | ordinally, `Another` sorts after `AndAnother` |
| SampleSources.AllPublicKept | Core/TestsGenerator.cs:97-98 | a class whose methods are all public keeps all of them, in order |
| SampleSources.OneClassStubNames | Tests/TestsGenerator.cs:108-126 | class `One` gets stubs `AndAnother_0_Test`, `AndAnother_1_Test`, `Another_Test` |
| SampleSources.OverloadSample | Tests/TestsGenerator.cs:57-70 | the overload sample gives one file `One_Test` in `One.AnotherOne.AndAnotherOne.Tests`, with three stubs, the first two `AndAnother_0_Test` and `AndAnother_1_Test` |
| SampleSources.CombinedFileCount | Tests/TestsGenerator.cs:11-18 | the three samples together give three generated files |
| SampleSources.CombinedUsings | Tests/TestsGenerator.cs:20-46 | every file of the combined samples has the five fixed usings followed by the three namespaces |
| SampleSources.SevenStubs | Tests/TestsGenerator.cs:48-55 | the three fixtures generated from the combined samples hold seven stubs in all |
| SampleSources.CombinedSample | Tests/TestsGenerator.cs:11-55 | the combined samples give three generated files whose fixtures hold seven stubs in all, each file with the expected usings |

## Left out

- Parsing the source text and `NormalizeWhitespace().ToFullString()`: the model works on declaration trees, and `TestInfo.Content` is the generated tree rather than its text.
- Which method declarations count as a class's methods: the model takes the list the parser's descendant walk finds. Methods of nested classes are included, as `DescendantNodes` includes them.
- File-scoped namespaces: a class's `parent` is a namespace name only when its direct parent is a block namespace declaration, which is what the `as NamespaceDeclarationSyntax` test accepts.
- Method parameters and return types: the stubs never copy them, so the source side does not record them.
- The dataflow blocks, their degrees of parallelism, `PerformProcessing`, `PipelineConfiguration`, and the interleaving of writes from different source files: concurrency is outside the model. One source file's writes are modelled in order.
- `ReadFile` and the stream reader and writer: I/O is modelled only as a write trace applied to a map from paths to contents. Write failures and exceptions, which fault the dataflow block rather than being isolated per file, are not modelled.
- The repository's generator tests read `.Content` off the returned array, so they target an aggregated variant of `Generate`. The sample lemmas read their expected counts as totals across the returned array.
- `Dataflow/Executor.cs` (command-line handling and directory checks): it is not part of this model.
- Ordinal.Compare: returns -1, 0 or 1 instead of the difference of the first differing characters; only the sign is used by the sort. Characters are compared as Dafny `char` values, not UTF-16 code units.
- MethodOrder.SortByName: a stable insertion sort stands for the unstable `List.Sort`. The names it yields are proved the same for every name-sorted order, but the modifiers copied within a run of overloads may come out in a different order in the C# program.
- Pipeline.WritesLand: paths are compared as exact strings. On a case-insensitive file system such as Windows, which the backslash separator targets, classes `Foo` and `foo` write the same file and one write is lost; the lemma's "every file lands" holds only where paths differing in letter case are different files.
- Pipeline.ProcessSource: the same exact-string path comparison as `Pipeline.WritesLand`, so "each class's file holds its unit" assumes a case-sensitive file system.
- Pipeline.OutputPathsDistinctIffClassNamesDistinct: distinctness is exact string distinctness, not distinctness ignoring letter case.
