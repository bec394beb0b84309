/** The generate and write stages of the file pipeline for one source file:
    each `TestInfo` becomes a file path and content under the output
    directory, and the writer writes the files one after another. Reading,
    the dataflow blocks and their degrees of parallelism are outside the
    model. */
module Pipeline {
  import opened Wrappers
  import opened SourceTree
  import opened GeneratedTree
  import opened Identifiers
  import opened TestsGenerator

  datatype FileWithContent = FileWithContent(path: string, content: GeneratedUnit)

  /** The output path of a generated test: `<savePath>\<name>.cs`. */
  function OutputPath(savePath: string, name: string): (r: string)
    ensures |r| == |savePath| + |name| + 4
    ensures r[..|savePath| + 1] == savePath + "\\"
    ensures r[|savePath| + 1..|r| - 3] == name && r[|r| - 3..] == ".cs"
  {
    savePath + "\\" + name + ".cs"
  }

  /** Reads the test name back off an output path under `savePath`. */
  function NameOfPath(savePath: string, path: string): Option<string> {
    var head := |savePath| + 1;
    if |path| >= head + 3 && path[..head] == savePath + "\\" && path[|path| - 3..] == ".cs"
    then Some(path[head..|path| - 3])
    else None
  }

  /** The test name can be read back off its output path. */
  lemma OutputPathRoundTrip(savePath: string, name: string)
    ensures NameOfPath(savePath, OutputPath(savePath, name)) == Some(name)
  {
    var p := OutputPath(savePath, name);
    var head := |savePath| + 1;
    assert p[..head] == savePath + "\\";
    assert p[|p| - 3..] == ".cs";
    assert p[head..|p| - 3] == name;
  }

  /** Within one directory, distinct test names give distinct paths. */
  lemma OutputPathInjective(savePath: string, a: string, b: string)
    ensures OutputPath(savePath, a) == OutputPath(savePath, b) <==> a == b
  {
    OutputPathRoundTrip(savePath, a);
    OutputPathRoundTrip(savePath, b);
  }

  /** The loop of `ProcessFile`: one file per test, in the same order, at
      the test's output path, with the generated unit unchanged. */
  method FilesFor(savePath: string, ti: seq<TestInfo>) returns (files: seq<FileWithContent>)
    ensures |files| == |ti|
    ensures forall i :: 0 <= i < |ti| ==>
      files[i].path == OutputPath(savePath, ti[i].name) && files[i].content == ti[i].content
  {
    files := [];
    var i := 0;
    while i < |ti|
      invariant 0 <= i <= |ti|
      invariant |files| == i
      invariant forall k :: 0 <= k < i ==> files[k] == FileWithContent(OutputPath(savePath, ti[k].name), ti[k].content)
    {
      files := files + [FileWithContent(savePath + "\\" + ti[i].name + ".cs", ti[i].content)];
      i := i + 1;
    }
  }

  /** `ProcessFile`: as many files as public classes, in document order, each
      at its test's output path and holding the generated unit unchanged. */
  method ProcessFile(savePath: string, source: SourceUnit) returns (files: seq<FileWithContent>)
    ensures |files| == |Generate(source)| == CountPublic(source.classes)
    ensures forall i :: 0 <= i < |files| ==>
      && files[i].path == OutputPath(savePath, Generate(source)[i].name)
      && files[i].content == Generate(source)[i].content
  {
    GenerateCount(source);
    files := FilesFor(savePath, Generate(source));
  }

  /** The file of the `i`-th public class is `<savePath>\<Class>_Test.cs`. */
  lemma OutputPathOfClass(savePath: string, source: SourceUnit, i: int)
    requires 0 <= i < |Generate(source)|
    ensures OutputPath(savePath, Generate(source)[i].name)
      == savePath + "\\" + source.classes[PublicClassIndices(source.classes)[i]].name + "_Test.cs"
  {
    var c := source.classes[PublicClassIndices(source.classes)[i]];
    assert Generate(source)[i].name == c.name + "_Test";
    TestFilePath(savePath, c.name);
  }

  lemma TestFilePath(savePath: string, className: string)
    ensures OutputPath(savePath, className + "_Test") == savePath + "\\" + className + "_Test.cs"
  {
    assert "_Test" + ".cs" == "_Test.cs";
  }

  /** Writing `content` to `path`, creating or overwriting the file. */
  datatype WriteEvent = Write(path: string, content: GeneratedUnit)

  /** `WriteFile`: one write per file, in array order. */
  method WriteFile(files: seq<FileWithContent>) returns (trace: seq<WriteEvent>)
    ensures |trace| == |files|
    ensures forall i :: 0 <= i < |files| ==> trace[i] == Write(files[i].path, files[i].content)
  {
    trace := [];
    for i := 0 to |files|
      invariant |trace| == i
      invariant forall k :: 0 <= k < i ==> trace[k] == Write(files[k].path, files[k].content)
    {
      trace := trace + [Write(files[i].path, files[i].content)];
    }
  }

  /** The files in the output directory, by path. */
  type FileSystem = map<string, GeneratedUnit>

  /** The file system after performing the writes in order; a write replaces
      whatever the path held. */
  function Apply(fs: FileSystem, trace: seq<WriteEvent>): FileSystem
  {
    if trace == [] then fs
    else
      var last := trace[|trace| - 1];
      Apply(fs, trace[..|trace| - 1])[last.path := last.content]
  }

  /** A path ends up holding the content of the last write to it. */
  lemma {:induction false} LastWriteWins(fs: FileSystem, trace: seq<WriteEvent>, i: int)
    requires 0 <= i < |trace|
    requires forall j :: i < j < |trace| ==> trace[j].path != trace[i].path
    ensures trace[i].path in Apply(fs, trace)
    ensures Apply(fs, trace)[trace[i].path] == trace[i].content
    decreases |trace|
  {
    if i < |trace| - 1 {
      var prefix := trace[..|trace| - 1];
      assert prefix[i] == trace[i];
      LastWriteWins(fs, prefix, i);
    }
  }

  /** A path no write names keeps whatever it held. */
  lemma {:induction false} UnwrittenPathsKept(fs: FileSystem, trace: seq<WriteEvent>, p: string)
    requires forall j :: 0 <= j < |trace| ==> trace[j].path != p
    ensures p in Apply(fs, trace) <==> p in fs
    ensures p in fs ==> Apply(fs, trace)[p] == fs[p]
    decreases |trace|
  {
    if trace != [] {
      UnwrittenPathsKept(fs, trace[..|trace| - 1], p);
    }
  }

  /** Output paths of one source clash exactly when two public classes share
      a name (say, in different namespaces). */
  lemma OutputPathsDistinctIffClassNamesDistinct(savePath: string, source: SourceUnit)
    ensures (forall i, j :: 0 <= i < j < |Generate(source)| ==>
               OutputPath(savePath, Generate(source)[i].name) != OutputPath(savePath, Generate(source)[j].name))
        <==> (forall i, j :: 0 <= i < j < |PublicClassIndices(source.classes)| ==>
               source.classes[PublicClassIndices(source.classes)[i]].name != source.classes[PublicClassIndices(source.classes)[j]].name)
  {
    var r := Generate(source);
    var idx := PublicClassIndices(source.classes);
    forall i, j | 0 <= i < j < |r|
      ensures OutputPath(savePath, r[i].name) == OutputPath(savePath, r[j].name)
          <==> source.classes[idx[i]].name == source.classes[idx[j]].name
    {
      OutputPathInjective(savePath, r[i].name, r[j].name);
      AppendCancel(source.classes[idx[i]].name, source.classes[idx[j]].name, "_Test");
    }
  }

  /** One source file through the generate and write stages: when the public
      classes have distinct names, each one's file ends up holding its
      generated unit, and nothing outside the written paths changes; a
      source without public classes writes nothing. */
  method ProcessSource(savePath: string, source: SourceUnit, fs: FileSystem) returns (trace: seq<WriteEvent>, fs': FileSystem)
    ensures |trace| == CountPublic(source.classes)
    ensures CountPublic(source.classes) == 0 ==> trace == [] && fs' == fs
    ensures (forall i, j :: 0 <= i < j < |Generate(source)| ==> Generate(source)[i].name != Generate(source)[j].name) ==>
      forall i :: 0 <= i < |Generate(source)| ==>
        var path := OutputPath(savePath, Generate(source)[i].name);
        path in fs' && fs'[path] == Generate(source)[i].content
    ensures forall p :: (forall i :: 0 <= i < |trace| ==> trace[i].path != p) ==>
      (p in fs' <==> p in fs) && (p in fs ==> fs'[p] == fs[p])
  {
    var files := ProcessFile(savePath, source);
    trace := WriteFile(files);
    fs' := Apply(fs, trace);
    WritesLand(savePath, Generate(source), files, trace, fs);
  }

  /** Writing the files of a list of tests one after another: with distinct
      test names every file ends up holding its test's unit, and paths no
      write names are left alone. */
  lemma WritesLand(savePath: string, ti: seq<TestInfo>, files: seq<FileWithContent>, trace: seq<WriteEvent>, fs: FileSystem)
    requires |files| == |ti| == |trace|
    requires forall i :: 0 <= i < |ti| ==>
      files[i].path == OutputPath(savePath, ti[i].name) && files[i].content == ti[i].content
    requires forall i :: 0 <= i < |files| ==> trace[i] == Write(files[i].path, files[i].content)
    ensures (forall i, j :: 0 <= i < j < |ti| ==> ti[i].name != ti[j].name) ==>
      forall i :: 0 <= i < |ti| ==>
        var path := OutputPath(savePath, ti[i].name);
        path in Apply(fs, trace) && Apply(fs, trace)[path] == ti[i].content
    ensures forall p :: (forall i :: 0 <= i < |trace| ==> trace[i].path != p) ==>
      (p in Apply(fs, trace) <==> p in fs) && (p in fs ==> Apply(fs, trace)[p] == fs[p])
  {
    if forall i, j :: 0 <= i < j < |ti| ==> ti[i].name != ti[j].name {
      forall i | 0 <= i < |ti|
        ensures OutputPath(savePath, ti[i].name) in Apply(fs, trace)
             && Apply(fs, trace)[OutputPath(savePath, ti[i].name)] == ti[i].content
      {
        forall j | i < j < |trace|
          ensures trace[j].path != trace[i].path
        {
          OutputPathInjective(savePath, ti[i].name, ti[j].name);
        }
        LastWriteWins(fs, trace, i);
      }
    }
    forall p | forall i :: 0 <= i < |trace| ==> trace[i].path != p
      ensures (p in Apply(fs, trace) <==> p in fs) && (p in fs ==> Apply(fs, trace)[p] == fs[p])
    {
      UnwrittenPathsKept(fs, trace, p);
    }
  }
}
