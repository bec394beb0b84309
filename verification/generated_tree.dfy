/** The generated compilation unit, kept as a tree: whitespace normalisation
    and printing to text are outside the model. */
module GeneratedTree {
  import opened SourceTree

  /** An expression statement invoking `receiver.member(argument)` with one
      string literal argument. */
  datatype Statement = Invocation(receiver: string, member: string, argument: string)

  datatype TestMethod = TestMethod(
    attributes: seq<string>,
    modifiers: seq<Modifier>,
    returnType: string,
    name: string,
    parameters: seq<string>,
    body: seq<Statement>)

  datatype TestClass = TestClass(
    attributes: seq<string>,
    modifiers: seq<Modifier>,
    name: string,
    members: seq<TestMethod>)

  /** A namespace declaration holding one test fixture. */
  datatype TestNamespace = TestNamespace(name: string, fixture: TestClass)

  datatype GeneratedUnit = GeneratedUnit(usings: seq<string>, members: seq<TestNamespace>)

  /** One generated test file: the name the caller uses for the output file,
      and the unit it holds. */
  datatype TestInfo = TestInfo(name: string, content: GeneratedUnit)
}
