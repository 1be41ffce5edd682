/**
 * The pieces of JavaPoet and of the type layer that the field generators use, kept abstract: a code
 * fragment is a tree of the few shapes the generators build, and a type model is a record whose
 * conversions and accessor-naming rules are arbitrary functions.
 */
module CodeModel {

  /** A JavaPoet `CodeBlock`, by the shapes the generators emit. */
  datatype CodeBlock =
    | Raw(text: string)                                              // `CodeBlock.of(text)`: a name or literal
    | Call(receiver: string, methodName: string, args: seq<CodeBlock>)  // `$N.$L($L)` / `$L.$L()`
    | Stmt(body: CodeBlock)                                          // `addStatement`: the fragment followed by `;`
    | IfNotNull(variable: string, body: CodeBlock)                   // `if ($N != null) { body }`
    | HasTernary(message: string, fieldName: string, present: CodeBlock)  // `$L.has$L() ? $L : null`

  /**
   * A `TypeModel` as the generators see it: whether it is a `PrimitiveTypeModel`, the text of its
   * Java type name, `isPrimitiveOrVoid`, the setter and getter naming rules, and the two conversions.
   */
  datatype TypeModel = TypeModel(
    isPrimitiveTypeModel: bool,
    typeName: string,
    isPrimitiveOrVoid: bool,
    setterMethod: string -> string,
    getterMethod: string -> string,
    toGrpcTransformer: CodeBlock -> CodeBlock,
    fromGrpcTransformer: CodeBlock -> CodeBlock)

  // ---------------------------------------------------------------------------------------------
  // What running a fragment does

  /** The run-time facts a fragment depends on: the variables holding null and the fields whose has-bit is set. */
  datatype Env = Env(nullVariables: set<string>, presentFields: set<(string, string)>)

  /** One method invocation performed by running generated code. */
  datatype Invocation = Invocation(receiver: string, methodName: string)

  /** The invocations performed, in order, when the fragment runs: arguments before the call; a guard or ternary first tests. */
  function Run(b: CodeBlock, env: Env): seq<Invocation>
    decreases b, 1
  {
    match b
    case Raw(_) => []
    case Call(receiver, methodName, args) => RunAll(args, env) + [Invocation(receiver, methodName)]
    case Stmt(body) => Run(body, env)
    case IfNotNull(variable, body) => if variable in env.nullVariables then [] else Run(body, env)
    case HasTernary(message, fieldName, present) =>
      [Invocation(message, "has" + fieldName)] + (if (message, fieldName) in env.presentFields then Run(present, env) else [])
  }

  function RunAll(args: seq<CodeBlock>, env: Env): seq<Invocation>
    decreases args, 0
  {
    if |args| == 0 then [] else Run(args[0], env) + RunAll(args[1..], env)
  }

  /** The value an expression fragment yields: null, or the value computed by an expression. */
  datatype Value = Null | Computed(expr: CodeBlock)

  /** The value of an expression fragment: a name holding null is null, a ternary with its has-bit clear is null. */
  function Evaluate(b: CodeBlock, env: Env): Value
    decreases b
  {
    match b
    case Raw(text) => if text in env.nullVariables then Null else Computed(b)
    case HasTernary(message, fieldName, present) =>
      if (message, fieldName) in env.presentFields then Evaluate(present, env) else Null
    case _ => Computed(b)
  }
}
