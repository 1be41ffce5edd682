/**
 * `FieldTransformerGenerator`: the two conversion fragments of one field, domain to wire (`toGrpc`) and
 * wire to domain (`fromGrpc`), shaped by the field's nullability and by a name-based primitive test.
 */
module FieldTransformer {
  import opened Wrappers
  import opened Failures
  import opened Text
  import opened CodeModel

  /** `PRIMITIVE_TYPE_NAMES`. */
  const PrimitiveTypeNames: set<string> := {"boolean", "byte", "short", "int", "long", "float", "double", "char"}

  /** `isPrimitiveType`: the lower-cased simple name (the text after the last dot) is a primitive keyword. */
  predicate IsPrimitiveType(typeName: string) {
    ToLower(AfterLast(typeName, '.')) in PrimitiveTypeNames
  }

  /** Only the simple name counts: any package in front of it is ignored. */
  lemma PrimitiveTypeIgnoresPackage(packageName: string, simpleName: string)
    requires '.' !in simpleName
    ensures IsPrimitiveType(packageName + "." + simpleName) <==> IsPrimitiveType(simpleName)
  {
    AfterLastQualified(packageName, '.', simpleName);
    AfterLastMeaning(simpleName, '.');
    assert AfterLast(packageName + "." + simpleName, '.') == AfterLast(simpleName, '.');
  }

  /** `lastIndexOf` sees the same dots in a string and in its lower-cased copy. */
  lemma {:induction false} LastDotIgnoresCase(s: string)
    ensures LastIndexOf(ToLower(s), '.') == LastIndexOf(s, '.')
  {
    var t := ToLower(s);
    var a, b := LastIndexOf(t, '.'), LastIndexOf(s, '.');
    assert forall i :: 0 <= i < |s| ==> (t[i] == '.' <==> s[i] == '.');
  }

  /** Lower-casing the whole name first changes nothing about its lower-cased simple name. */
  lemma SimpleNameIgnoresCase(typeName: string)
    ensures ToLower(AfterLast(ToLower(typeName), '.')) == ToLower(AfterLast(typeName, '.'))
  {
    var t := ToLower(typeName);
    LastDotIgnoresCase(typeName);
    var i := LastIndexOf(typeName, '.');
    assert AfterLast(t, '.') == t[i + 1..];
    assert AfterLast(typeName, '.') == typeName[i + 1..];
    ToLowerSuffix(typeName, i + 1);
    ToLowerIdempotent(typeName[i + 1..]);
  }

  /** Case never matters: a type name and its lower-cased copy are both primitive or both not. */
  lemma PrimitiveTypeIgnoresCase(typeName: string)
    ensures IsPrimitiveType(ToLower(typeName)) <==> IsPrimitiveType(typeName)
  {
    SimpleNameIgnoresCase(typeName);
  }

  /** For a name without a dot, with any package in front: it is primitive exactly when its lower-cased form is a keyword. */
  lemma SimpleNamePrimitive(packageName: string, simpleName: string, lower: string)
    requires '.' !in simpleName && ToLower(simpleName) == lower
    ensures IsPrimitiveType(simpleName) <==> lower in PrimitiveTypeNames
    ensures IsPrimitiveType(packageName + "." + simpleName) <==> lower in PrimitiveTypeNames
  {
    PrimitiveTypeIgnoresPackage(packageName, simpleName);
  }

  /** The boxed types whose lower-cased names are primitive keywords. */
  const BoxedPrimitiveNames: set<string> := {"Boolean", "Byte", "Short", "Long", "Float", "Double"}

  /**
   * The boxed `Boolean`, `Byte`, `Short`, `Long`, `Float` and `Double` count as primitive, in any package
   * (`java.lang.Long`), because of the lower-casing.
   */
  lemma BoxedTypeIsPrimitive(packageName: string, boxed: string)
    requires boxed in BoxedPrimitiveNames
    ensures IsPrimitiveType(boxed) && IsPrimitiveType(packageName + "." + boxed)
  {
    assert '.' !in boxed && ToLower(boxed) in PrimitiveTypeNames by {
      if boxed == "Boolean" {
        assert ToLower("Boolean") == "boolean";
      } else if boxed == "Byte" {
        assert ToLower("Byte") == "byte";
      } else if boxed == "Short" {
        assert ToLower("Short") == "short";
      } else if boxed == "Long" {
        assert ToLower("Long") == "long";
      } else if boxed == "Float" {
        assert ToLower("Float") == "float";
      } else {
        assert ToLower("Double") == "double";
      }
    }
    SimpleNamePrimitive(packageName, boxed, ToLower(boxed));
  }

  /** The boxed `Integer` does not count, in any package: `integer` is not a keyword. */
  lemma BoxedIntegerIsNotPrimitive(packageName: string)
    ensures !IsPrimitiveType("Integer") && !IsPrimitiveType(packageName + "." + "Integer")
  {
    assert ToLower("Integer") == "integer";
    assert "integer" !in PrimitiveTypeNames;
    SimpleNamePrimitive(packageName, "Integer", "integer");
  }

  /** Nor does `String`. */
  lemma StringIsNotPrimitive(packageName: string)
    ensures !IsPrimitiveType("String") && !IsPrimitiveType(packageName + "." + "String")
  {
    assert ToLower("String") == "string";
    assert "string" !in PrimitiveTypeNames;
    SimpleNamePrimitive(packageName, "String", "string");
  }

  /** The generator of one field: its type model, its camel-cased proto name and its nullability, all fixed. */
  datatype FieldTransformerGenerator = FieldTransformerGenerator(typeModel: TypeModel, fieldProtoName: string, nullable: bool)
  {
    /** `generated`: `builder.setter(toGrpcTransformer(value))`. */
    function SetterCall(builderName: string, generatedFieldName: string): CodeBlock {
      Call(builderName, typeModel.setterMethod(fieldProtoName), [typeModel.toGrpcTransformer(Raw(generatedFieldName))])
    }

    /** `toGrpc`, that is `ToGrpc.generate`. */
    function ToGrpc(builderName: string, generatedFieldName: string): (r: Result<CodeBlock, Throwable>)
      ensures r.Err? <==> nullable && typeModel.isPrimitiveTypeModel
      ensures r.Err? ==> r.error == IllegalStateException
      ensures r.Ok? ==> (r.value.IfNotNull? <==> nullable && !IsPrimitiveType(typeModel.typeName))
      ensures r.Ok? && r.value.IfNotNull? ==> r.value == IfNotNull(generatedFieldName, Stmt(SetterCall(builderName, generatedFieldName)))
      ensures r.Ok? ==> (r.value.Stmt? <==> (nullable && IsPrimitiveType(typeModel.typeName)) || (!nullable && builderName != ""))
      ensures r.Ok? && r.value.Stmt? ==> r.value.body == SetterCall(builderName, generatedFieldName)
      ensures r.Ok? && !r.value.Stmt? && !r.value.IfNotNull? ==> r.value == SetterCall(builderName, generatedFieldName)
    {
      var generated := SetterCall(builderName, generatedFieldName);
      if nullable then
        if typeModel.isPrimitiveTypeModel then Err(IllegalStateException)
        else if IsPrimitiveType(typeModel.typeName) then Ok(Stmt(generated))
        else Ok(IfNotNull(generatedFieldName, Stmt(generated)))
      else if builderName != "" then Ok(Stmt(generated))
      else Ok(generated)
    }

    /** `param.getter()`. */
    function GetterCall(protoParameterName: string): CodeBlock {
      Call(protoParameterName, typeModel.getterMethod(fieldProtoName), [])
    }

    /** `fromGrpc`, that is `FromGrpc.process` and `wrapToHasCheck`. */
    function FromGrpc(protoParameterName: string): (r: Result<CodeBlock, Throwable>)
      ensures r.Err? <==> nullable && typeModel.isPrimitiveTypeModel
      ensures r.Err? ==> r.error == IllegalStateException
      ensures r.Ok? && nullable ==>
        r.value == HasTernary(protoParameterName, fieldProtoName, typeModel.fromGrpcTransformer(GetterCall(protoParameterName)))
      ensures !nullable ==> r == Ok(typeModel.fromGrpcTransformer(GetterCall(protoParameterName)))
    {
      var from := typeModel.fromGrpcTransformer(GetterCall(protoParameterName));
      if nullable then
        if typeModel.isPrimitiveTypeModel then Err(IllegalStateException)
        else Ok(HasTernary(protoParameterName, fieldProtoName, from))
      else Ok(from)
    }
  }

  /** The constructor: the proto name is camel-cased once, by `Name.toCamelCase`, and kept. */
  function NewFieldTransformerGenerator(typeModel: TypeModel, fieldProtoName: string, nullable: bool,
                                        toCamelCase: string -> string): FieldTransformerGenerator
  {
    FieldTransformerGenerator(typeModel, toCamelCase(fieldProtoName), nullable)
  }

  /**
   * A nullable field whose type name is not primitive-looking calls the wire setter only when the domain
   * value is not null: nothing at all runs for a null value, otherwise the conversion and then the setter.
   */
  lemma SetterGuardedByNullCheck(g: FieldTransformerGenerator, builderName: string, generatedFieldName: string, env: Env)
    requires g.nullable && !g.typeModel.isPrimitiveTypeModel && !IsPrimitiveType(g.typeModel.typeName)
    ensures g.ToGrpc(builderName, generatedFieldName).Ok?
    ensures generatedFieldName in env.nullVariables ==> Run(g.ToGrpc(builderName, generatedFieldName).value, env) == []
    ensures generatedFieldName !in env.nullVariables ==>
      Run(g.ToGrpc(builderName, generatedFieldName).value, env)
        == Run(g.typeModel.toGrpcTransformer(Raw(generatedFieldName)), env) + [Invocation(builderName, g.typeModel.setterMethod(g.fieldProtoName))]
  {
    var c := g.typeModel.toGrpcTransformer(Raw(generatedFieldName));
    var call := g.SetterCall(builderName, generatedFieldName);
    assert [c][1..] == [];
    assert RunAll([c], env) == Run(c, env) + RunAll([], env);
    assert Run(call, env) == Run(c, env) + [Invocation(builderName, g.typeModel.setterMethod(g.fieldProtoName))];
    assert Run(Stmt(call), env) == Run(call, env);
  }

  /**
   * Without that guard (a non-nullable field, or a nullable one whose type name looks primitive, such as
   * `java.lang.Long`), the conversion and the setter run whatever the value holds, null included.
   */
  lemma SetterUnguarded(g: FieldTransformerGenerator, builderName: string, generatedFieldName: string, env: Env)
    requires !g.nullable || (!g.typeModel.isPrimitiveTypeModel && IsPrimitiveType(g.typeModel.typeName))
    ensures g.ToGrpc(builderName, generatedFieldName).Ok?
    ensures Run(g.ToGrpc(builderName, generatedFieldName).value, env)
         == Run(g.typeModel.toGrpcTransformer(Raw(generatedFieldName)), env) + [Invocation(builderName, g.typeModel.setterMethod(g.fieldProtoName))]
  {
    var c := g.typeModel.toGrpcTransformer(Raw(generatedFieldName));
    var call := g.SetterCall(builderName, generatedFieldName);
    assert [c][1..] == [];
    assert RunAll([c], env) == Run(c, env) + RunAll([], env);
    assert Run(call, env) == Run(c, env) + [Invocation(builderName, g.typeModel.setterMethod(g.fieldProtoName))];
    assert Run(Stmt(call), env) == Run(call, env);
  }

  /**
   * A nullable field reads back null, calling only `has<Name>()`, when the wire message lacks the field;
   * when the has-bit is set it is the converted getter value.
   */
  lemma FromGrpcAbsentIsNull(g: FieldTransformerGenerator, protoParameterName: string, env: Env)
    requires g.nullable && !g.typeModel.isPrimitiveTypeModel
    ensures g.FromGrpc(protoParameterName).Ok?
    ensures (protoParameterName, g.fieldProtoName) !in env.presentFields ==>
      && Evaluate(g.FromGrpc(protoParameterName).value, env) == Null
      && Run(g.FromGrpc(protoParameterName).value, env) == [Invocation(protoParameterName, "has" + g.fieldProtoName)]
    ensures (protoParameterName, g.fieldProtoName) in env.presentFields ==>
      && Evaluate(g.FromGrpc(protoParameterName).value, env) == Evaluate(g.typeModel.fromGrpcTransformer(g.GetterCall(protoParameterName)), env)
      && Run(g.FromGrpc(protoParameterName).value, env)
         == [Invocation(protoParameterName, "has" + g.fieldProtoName)] + Run(g.typeModel.fromGrpcTransformer(g.GetterCall(protoParameterName)), env)
  {
  }

  /** The setter `toGrpc` calls is named after the proto name as camel-cased in the constructor. */
  lemma SetterUsesCamelCasedName(typeModel: TypeModel, fieldProtoName: string, nullable: bool, toCamelCase: string -> string,
                                 builderName: string, generatedFieldName: string, env: Env)
    requires !typeModel.isPrimitiveTypeModel
    requires generatedFieldName !in env.nullVariables
    ensures NewFieldTransformerGenerator(typeModel, fieldProtoName, nullable, toCamelCase).ToGrpc(builderName, generatedFieldName).Ok?
    ensures Invocation(builderName, typeModel.setterMethod(toCamelCase(fieldProtoName)))
         in Run(NewFieldTransformerGenerator(typeModel, fieldProtoName, nullable, toCamelCase).ToGrpc(builderName, generatedFieldName).value, env)
  {
    var g := NewFieldTransformerGenerator(typeModel, fieldProtoName, nullable, toCamelCase);
    var inv := Invocation(builderName, typeModel.setterMethod(toCamelCase(fieldProtoName)));
    var pre := Run(typeModel.toGrpcTransformer(Raw(generatedFieldName)), env);
    if nullable && !IsPrimitiveType(typeModel.typeName) {
      SetterGuardedByNullCheck(g, builderName, generatedFieldName, env);
    } else {
      SetterUnguarded(g, builderName, generatedFieldName, env);
    }
    assert Run(g.ToGrpc(builderName, generatedFieldName).value, env) == pre + [inv];
    assert (pre + [inv])[|pre|] == inv;
  }

  /** The has-check and the getter of a nullable `fromGrpc` use that same camel-cased name. */
  lemma HasCheckUsesCamelCasedName(typeModel: TypeModel, fieldProtoName: string, toCamelCase: string -> string,
                                   protoParameterName: string, env: Env)
    requires !typeModel.isPrimitiveTypeModel
    ensures NewFieldTransformerGenerator(typeModel, fieldProtoName, true, toCamelCase).FromGrpc(protoParameterName).Ok?
    ensures Run(NewFieldTransformerGenerator(typeModel, fieldProtoName, true, toCamelCase).FromGrpc(protoParameterName).value, env)[0]
         == Invocation(protoParameterName, "has" + toCamelCase(fieldProtoName))
    ensures NewFieldTransformerGenerator(typeModel, fieldProtoName, true, toCamelCase).FromGrpc(protoParameterName).value.present
         == typeModel.fromGrpcTransformer(Call(protoParameterName, typeModel.getterMethod(toCamelCase(fieldProtoName)), []))
  {
    var g := NewFieldTransformerGenerator(typeModel, fieldProtoName, true, toCamelCase);
    FromGrpcAbsentIsNull(g, protoParameterName, env);
  }
}
