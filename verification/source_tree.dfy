/** The part of a parsed compilation unit the generator looks at: using
    directives, namespace declarations, and class declarations with the method
    declarations found beneath them. Parsing itself is outside the model; every
    sequence here is in document order. */
module SourceTree {
  import opened Wrappers

  /** A modifier keyword. Only `public` drives a decision; the others are
      carried along because a method's modifiers are copied into its stub. */
  datatype Modifier =
    | Public
    | Private
    | Protected
    | Internal
    | Static
    | Abstract
    | Virtual
    | Override
    | Sealed
    | Async
    | Partial
    | OtherModifier(keyword: string)

  /** The `Modifiers.Any(SyntaxKind.PublicKeyword)` test used for classes and
      methods alike. */
  predicate IsPublic(modifiers: seq<Modifier>) {
    Public in modifiers
  }

  datatype MethodDecl = MethodDecl(name: string, modifiers: seq<Modifier>)

  /** A class declaration. `parent` is the name of the namespace declaration
      that is the class's direct syntactic parent, or `None` when the parent is
      anything else (the compilation unit, another class, a file-scoped
      namespace). `methods` are the method declarations among the class's
      descendants. */
  datatype ClassDecl = ClassDecl(
    name: string,
    modifiers: seq<Modifier>,
    parent: Option<string>,
    methods: seq<MethodDecl>)

  /** A compilation unit: the names of all using directives, the names of all
      namespace declarations, and all class declarations, each in document
      order. */
  datatype SourceUnit = SourceUnit(
    usings: seq<string>,
    namespaces: seq<string>,
    classes: seq<ClassDecl>)
}
