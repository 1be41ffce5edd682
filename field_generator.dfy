/**
 * `FieldGenerator.generate`: the field-level orchestration. It skips unused fields, asks the visibility
 * analyzer whether the domain class reaches the field only through an inherited restricted declaration,
 * records that answer on the field, chooses the identifier, and gates the nullability annotation.
 */
module FieldGeneration {
  import opened Wrappers
  import opened Failures
  import opened Text
  import opened Descriptors
  import opened CodeModel
  import opened VisibilityAnalyzer

  /**
   * What `generate` takes from its `GenerationContext` and surroundings: the type manager's
   * `processType`, the containing file's `doUseNullabilityAnnotation` policy, and the analyzer's
   * environment (workspace, the configured source roots in iteration order, the recursion bound).
   */
  datatype GenerationContext = GenerationContext(
    processType: FieldDescriptor -> TypeModel,
    doUseNullabilityAnnotation: bool -> bool,
    workspace: Workspace,
    projectPaths: seq<Path>,
    fuel: nat)

  /** The built `FieldSpec`: its type, its name, and the nullability annotation attached, if any. */
  datatype FieldSpec = FieldSpec(typeName: string, identifier: string, nullabilityAnnotation: Option<bool>)

  /** `FieldProcessingResult`, and its `empty` form for an unused field. */
  datatype FieldProcessingResult =
    | Empty(field: Field)
    | Processed(field: Field, fieldSpec: FieldSpec, typeModel: TypeModel, isNullable: bool)

  /** The domain class name: one leading `Grpc` is dropped from the message name. */
  function StripGrpcPrefix(rawName: string): (r: string)
    ensures StartsWith(rawName, "Grpc") ==> "Grpc" + r == rawName
    ensures !StartsWith(rawName, "Grpc") ==> r == rawName
  {
    if StartsWith(rawName, "Grpc") then rawName[4..] else rawName
  }

  /** Stripping undoes the wire-side prefix, and only one occurrence of it. */
  lemma GrpcPrefixRoundTrip(domainName: string)
    ensures StripGrpcPrefix("Grpc" + domainName) == domainName
    ensures StripGrpcPrefix("GrpcGrpc" + domainName) == "Grpc" + domainName
  {
    assert ("Grpc" + domainName)[..4] == "Grpc";
    assert "GrpcGrpc" + domainName == "Grpc" + ("Grpc" + domainName);
  }

  /** The analyzer's answer for a field: the stripped message name and the original (underscore-kept) field name. */
  function AnalyzerAnswer(ctx: GenerationContext, d: FieldDescriptor): Result<bool, AnalysisError> {
    NeedGetterOf(ctx.workspace, StripGrpcPrefix(d.containingMessage), GetOriginalName(d), ctx.projectPaths, ctx.fuel)
  }

  /**
   * `resultNeedGetter` after the try block: the answer, or false for anything `catch (Exception e)`
   * catches; none when a stack overflow, an `Error`, escapes the catch.
   */
  function NeedGetterDecision(answer: Result<bool, AnalysisError>): (r: Option<bool>)
    ensures r.None? <==> answer == Err(HierarchyTooDeep)
    ensures r == Some(true) <==> answer == Ok(true)
    ensures answer.Err? && r.Some? ==> r == Some(false)
  {
    match answer
    case Ok(b) => Some(b)
    case Err(HierarchyTooDeep) => None
    case Err(_) => Some(false)
  }

  /** The annotation `attachNullabilityAnnotations` adds: only for a non-primitive type the file's policy accepts. */
  function NullabilityAnnotation(typeModel: TypeModel, doUseNullabilityAnnotation: bool -> bool, isNullable: bool): (r: Option<bool>)
    ensures r.Some? <==> !typeModel.isPrimitiveOrVoid && doUseNullabilityAnnotation(isNullable)
    ensures r.Some? ==> r.value == isNullable
  {
    if !typeModel.isPrimitiveOrVoid && doUseNullabilityAnnotation(isNullable) then Some(isNullable) else None
  }

  /** What `generate` produces for a used field, before it is tied to the `Field` object. */
  datatype Generated = Skipped | Built(fieldSpec: FieldSpec, typeModel: TypeModel, isNullable: bool)

  /** The flag value `generate` writes (none when it writes none) and what it returns or throws. */
  datatype Outcome = Outcome(flag: Option<bool>, result: Result<Generated, Throwable>)

  /** `generate`, as a value. */
  function GenerateOutcome(ctx: GenerationContext, d: FieldDescriptor): (o: Outcome)
    requires Valid(d)
    ensures IsUnused(d) ==> o == Outcome(None, Ok(Skipped))
    ensures !IsUnused(d) && AnalyzerAnswer(ctx, d) == Err(HierarchyTooDeep) ==> o == Outcome(None, Err(StackOverflowError))
    ensures !IsUnused(d) && AnalyzerAnswer(ctx, d) != Err(HierarchyTooDeep) ==> o.flag == Some(AnalyzerAnswer(ctx, d) == Ok(true))
    ensures o.result.Err? ==>
      || (o.flag.None? && o.result.error == StackOverflowError)
      || (o.flag == Some(true) && GetGetterMethodName(d).Err? && o.result.error == StringIndexOutOfBoundsException)
    ensures o.result.Ok? && !IsUnused(d) ==> o.result.value.Built?
    ensures o.result.Ok? && o.result.value.Built? ==>
      && o.result.value.typeModel == ctx.processType(d)
      && o.result.value.isNullable == IsNullable(d)
      && o.result.value.fieldSpec.typeName == ctx.processType(d).typeName
      && Ok(o.result.value.fieldSpec.identifier) == (if o.flag == Some(true) then GetGetterMethodName(d) else Ok(GetOriginalName(d)))
      && o.result.value.fieldSpec.nullabilityAnnotation == NullabilityAnnotation(ctx.processType(d), ctx.doUseNullabilityAnnotation, IsNullable(d))
  {
    if IsUnused(d) then Outcome(None, Ok(Skipped))
    else
      var typeModel := ctx.processType(d);
      match NeedGetterDecision(AnalyzerAnswer(ctx, d))
      case None => Outcome(None, Err(StackOverflowError))
      case Some(needGetter) =>
        var identifier := if needGetter then GetGetterMethodName(d) else Ok(GetOriginalName(d));
        if identifier.Err? then Outcome(Some(needGetter), Err(identifier.error))
        else
          var isNullable := IsNullable(d);
          var annotation := NullabilityAnnotation(typeModel, ctx.doUseNullabilityAnnotation, isNullable);
          Outcome(Some(needGetter), Ok(Built(FieldSpec(typeModel.typeName, identifier.value, annotation), typeModel, isNullable)))
  }

  /** The result object for a field. */
  function ProcessingResult(field: Field, g: Result<Generated, Throwable>): Result<FieldProcessingResult, Throwable> {
    match g
    case Err(e) => Err(e)
    case Ok(Skipped) => Ok(Empty(field))
    case Ok(Built(fieldSpec, typeModel, isNullable)) => Ok(Processed(field, fieldSpec, typeModel, isNullable))
  }

  /**
   * `generate`: returns the empty result for an unused field; otherwise queries the analyzer, treats any
   * exception as "no getter", stores the answer on the field, then builds the field spec.
   */
  method Generate(ctx: GenerationContext, field: Field) returns (r: Result<FieldProcessingResult, Throwable>)
    requires Valid(field.descriptor)
    modifies field
    ensures GenerateOutcome(ctx, field.descriptor).flag.Some? ==>
      field.GetNeedGetterInOriginalClass() == GenerateOutcome(ctx, field.descriptor).flag.value
    ensures GenerateOutcome(ctx, field.descriptor).flag.None? ==>
      field.GetNeedGetterInOriginalClass() == old(field.GetNeedGetterInOriginalClass())
    ensures r == ProcessingResult(field, GenerateOutcome(ctx, field.descriptor).result)
  {
    var d := field.descriptor;
    if IsUnused(d) {
      return Ok(Empty(field));
    }
    var typeModel := ctx.processType(d);
    var identifier2 := GetOriginalName(d);
    var messageName := StripGrpcPrefix(d.containingMessage);

    var resultNeedGetter := false;
    var answer := NeedGetter(ctx.workspace, messageName, identifier2, ctx.projectPaths, ctx.fuel);
    match answer {
      case Ok(b) => resultNeedGetter := b;
      case Err(HierarchyTooDeep) => return Err(StackOverflowError);
      case Err(_) =>
    }

    field.SetNeedGetterInOriginalClass(resultNeedGetter);
    var identifier: string;
    if resultNeedGetter {
      var identifier4 := GetGetterMethodName(d);
      if identifier4.Err? {
        return Err(identifier4.error);
      }
      identifier := identifier4.value;
    } else {
      identifier := identifier2;
    }

    var isNullable := IsNullable(d);
    var annotation: Option<bool> := None;
    if !typeModel.isPrimitiveOrVoid {
      if ctx.doUseNullabilityAnnotation(isNullable) {
        annotation := Some(isNullable);
      }
    }
    return Ok(Processed(field, FieldSpec(typeModel.typeName, identifier, annotation), typeModel, isNullable));
  }

  // ---------------------------------------------------------------------------------------------
  // Properties of generate

  /** An unused field is skipped before the type manager or the analyzer is consulted: the context does not matter. */
  lemma UnusedFieldIgnoresContext(ctx: GenerationContext, other: GenerationContext, d: FieldDescriptor)
    requires Valid(d) && IsUnused(d)
    ensures GenerateOutcome(ctx, d) == GenerateOutcome(other, d)
    ensures GenerateOutcome(ctx, d).flag.None?
  {
  }

  /** A failing analysis (no class file, a parse failure, a class missing from its file) means "no getter". */
  lemma AnalyzerFailureMeansNoGetter(ctx: GenerationContext, d: FieldDescriptor)
    requires Valid(d) && !IsUnused(d)
    requires AnalyzerAnswer(ctx, d).Err? && AnalyzerAnswer(ctx, d).error != HierarchyTooDeep
    ensures GenerateOutcome(ctx, d).flag == Some(false)
    ensures GenerateOutcome(ctx, d).result.Ok?
    ensures GenerateOutcome(ctx, d).result.value.fieldSpec.identifier == GetOriginalName(d)
  {
  }

  /** In particular a domain class found under none of the roots: the field keeps its original name. */
  lemma MissingDomainClassMeansNoGetter(ctx: GenerationContext, d: FieldDescriptor)
    requires Valid(d) && !IsUnused(d)
    requires JavaFileForClass(ctx.workspace, StripGrpcPrefix(d.containingMessage), ctx.projectPaths).None?
    ensures GenerateOutcome(ctx, d).flag == Some(false)
    ensures GenerateOutcome(ctx, d).result.Ok?
    ensures GenerateOutcome(ctx, d).result.value.fieldSpec.identifier == GetOriginalName(d)
  {
    AnalyzerFailureMeansNoGetter(ctx, d);
  }

  /**
   * Without a getter the identifier is the original proto name, underscore included, not the generated
   * name: a `fieldName` option renaming the field changes nothing about it.
   */
  lemma NoGetterKeepsOriginalName(ctx: GenerationContext, d: FieldDescriptor, rename: Option<string>)
    requires Valid(d) && !IsUnused(d)
    requires GenerateOutcome(ctx, d).flag == Some(false)
    ensures GenerateOutcome(ctx, d).result.Ok?
    ensures GenerateOutcome(ctx, d).result.value.fieldSpec.identifier == GetOriginalName(d)
    ensures GenerateOutcome(ctx, d.(fieldNameOption := rename)).result.Ok?
    ensures GenerateOutcome(ctx, d.(fieldNameOption := rename)).result.value.fieldSpec.identifier
         == GenerateOutcome(ctx, d).result.value.fieldSpec.identifier
  {
    var d' := d.(fieldNameOption := rename);
    assert AnalyzerAnswer(ctx, d') == AnalyzerAnswer(ctx, d);
  }

  /**
   * With a getter the identifier is `get` + the capitalised generated name; a field whose generated name
   * is empty makes `generate` throw, after the flag has already been set.
   */
  lemma GetterIdentifier(ctx: GenerationContext, d: FieldDescriptor)
    requires Valid(d) && !IsUnused(d)
    requires AnalyzerAnswer(ctx, d) == Ok(true)
    ensures GenerateOutcome(ctx, d).flag == Some(true)
    ensures GetGeneratedName(d) == "" ==> GenerateOutcome(ctx, d).result == Err(StringIndexOutOfBoundsException)
    ensures GetGeneratedName(d) != "" ==>
      && GenerateOutcome(ctx, d).result.Ok?
      && GenerateOutcome(ctx, d).result.value.fieldSpec.identifier
         == "get" + [UpperChar(GetGeneratedName(d)[0])] + GetGeneratedName(d)[1..]
  {
    if GetGeneratedName(d) != "" {
      var n := GenerateOutcome(ctx, d).result.value.fieldSpec.identifier;
      var g := GetGeneratedName(d);
      assert n == GetGetterMethodName(d).value;
      assert |n| == 3 + |g| && n[..3] == "get" && n[3] == UpperChar(g[0]) && n[4..] == g[1..];
      assert n == n[..3] + [n[3]] + n[4..];
    }
  }

  /**
   * A field inherited from a superclass that has no source file but loads at run time (a library class)
   * gets the getter identifier exactly when reflection finds it private or protected.
   */
  lemma ReflectedSuperclassDecides(ctx: GenerationContext, d: FieldDescriptor, classFile: Path, clazz: ClassDeclaration)
    requires Valid(d) && !IsUnused(d) && ctx.fuel > 0
    requires JavaFileForClass(ctx.workspace, StripGrpcPrefix(d.containingMessage), ctx.projectPaths) == Some(classFile)
    requires classFile in ctx.workspace.parsed
    requires GetClassByName(ctx.workspace.parsed[classFile].classes, StripGrpcPrefix(d.containingMessage)) == Some(clazz)
    requires DeclaredVisibility(clazz.fields, GetOriginalName(d)).None? && |clazz.extendedTypes| > 0
    requires SuperClassFile(ctx.workspace, ctx.workspace.parsed[classFile], clazz.extendedTypes[0], ParentDirectory(classFile),
                            ctx.projectPaths).None?
    ensures GenerateOutcome(ctx, d).flag == Some(ReflectionFallback(ctx.workspace, clazz.extendedTypes[0], GetOriginalName(d)))
  {
    var ws, name, attr := ctx.workspace, StripGrpcPrefix(d.containingMessage), GetOriginalName(d);
    var cu := ws.parsed[classFile];
    var b := ReflectionFallback(ws, clazz.extendedTypes[0], attr);
    assert AnalyzeClass(ws, classFile, cu, clazz, attr, ctx.projectPaths, false, ctx.fuel - 1) == Ok(b);
    assert Analyze(ws, classFile, name, attr, ctx.projectPaths, false, ctx.fuel) == Ok(b);
    assert AnalyzerAnswer(ctx, d) == Ok(b);
  }
}
