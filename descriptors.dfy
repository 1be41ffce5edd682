/** The wire kinds of protobuf's `Descriptors.FieldDescriptor.JavaType`. */
module Protobuf {

  datatype JavaType = INT | LONG | FLOAT | DOUBLE | BOOLEAN | STRING | BYTE_STRING | ENUM | MESSAGE
}

/**
 * The field descriptor wrapper `org.sudu.protogen.descriptors.Field`: pure queries over
 * a protobuf field descriptor, plus one mutable flag that other generators read back.
 */
module Descriptors {
  import opened Wrappers
  import opened Failures
  import opened Text
  import Protobuf

  /** `Field.Type`, the generator's own copy of the wire kinds. */
  datatype Type = INT | LONG | FLOAT | DOUBLE | BOOLEAN | STRING | BYTE_STRING | ENUM | MESSAGE

  /** The container a repeated field maps to; any kind other than LIST is represented by SET. */
  datatype RepeatedContainer = LIST | SET

  /**
   * A protobuf field descriptor as plain values. The three protogen options
   * (`fieldName`, `repeatedContainer`, `unusedField`) are the results of their extension lookups.
   */
  datatype FieldDescriptor = FieldDescriptor(
    name: string,
    fieldNameOption: Option<string>,
    repeatedContainerOption: Option<RepeatedContainer>,
    unusedFieldOption: Option<bool>,
    isRepeated: bool,
    hasOptionalKeyword: bool,
    inOneof: bool,
    javaType: Protobuf.JavaType,
    messageType: Option<MessageDescriptor>,
    enumType: Option<EnumDescriptor>,
    containingMessage: string)

  /** The parts of a message descriptor that `Field` consults; the two flags are `Message.isMap()` and `Message.isUnfolded()`. */
  datatype MessageDescriptor = MessageDescriptor(name: string, isMap: bool, isUnfolded: bool, fields: seq<FieldDescriptor>)

  datatype EnumDescriptor = EnumDescriptor(name: string)

  /**
   * What protobuf and `Message` guarantee of a descriptor: a message (enum) type is present exactly
   * for message (enum) fields, and a message that is an unfolded wrapper has a field to unfold.
   */
  ghost predicate Valid(d: FieldDescriptor)
    decreases d
  {
    && (d.javaType == Protobuf.MESSAGE <==> d.messageType.Some?)
    && (d.javaType == Protobuf.ENUM <==> d.enumType.Some?)
    && (d.messageType.Some? ==>
          && (d.messageType.value.isUnfolded ==> |d.messageType.value.fields| >= 1)
          && forall i :: 0 <= i < |d.messageType.value.fields| ==> Valid(d.messageType.value.fields[i]))
  }

  /** The leading-underscore rule shared by `getName` and `getGeneratedName`. */
  function StripLeadingUnderscore(s: string): (r: string)
    ensures r == s || "_" + r == s
    ensures "_" + r == s <==> StartsWith(s, "_")
  {
    if StartsWith(s, "_") then s[1..] else s
  }

  /** `Field.getName`: the descriptor name with one leading underscore removed. */
  function GetName(d: FieldDescriptor): string {
    StripLeadingUnderscore(d.name)
  }

  /** `Field.getOriginalName`. */
  function GetOriginalName(d: FieldDescriptor): string {
    d.name
  }

  /** `Field.hadLeadingUnderscore`. */
  predicate HadLeadingUnderscore(d: FieldDescriptor) {
    StartsWith(GetOriginalName(d), "_")
  }

  /** The original name is recovered from the stripped name and the underscore flag. */
  lemma NameRoundTrip(d: FieldDescriptor)
    ensures GetOriginalName(d) == (if HadLeadingUnderscore(d) then "_" else "") + GetName(d)
  {
  }

  /** `Field.getGeneratedName`: the `fieldName` option when present, else the original name, then stripped. */
  function GetGeneratedName(d: FieldDescriptor): string {
    StripLeadingUnderscore(d.fieldNameOption.GetOr(GetOriginalName(d)))
  }

  /** Without an override the generated name is `getName`; with one it ignores the descriptor name. */
  lemma GeneratedNameOverride(d: FieldDescriptor, other: string)
    ensures d.fieldNameOption.None? ==> GetGeneratedName(d) == GetName(d)
    ensures d.fieldNameOption.Some? ==> GetGeneratedName(d) == GetGeneratedName(d.(name := other))
    ensures d.fieldNameOption.Some? ==> GetGeneratedName(d) == StripLeadingUnderscore(d.fieldNameOption.value)
  {
  }

  /** `"get"` or `"set"` followed by the generated name with its first character upper-cased. */
  function AccessorName(prefix: string, d: FieldDescriptor): (r: Result<string, Throwable>)
    ensures r.Err? <==> GetGeneratedName(d) == ""
    ensures r.Err? ==> r.error == StringIndexOutOfBoundsException
    ensures r.Ok? ==> |r.value| == |prefix| + |GetGeneratedName(d)|
    ensures r.Ok? ==> StartsWith(r.value, prefix)
    ensures r.Ok? ==> r.value[|prefix|] == UpperChar(GetGeneratedName(d)[0])
    ensures r.Ok? ==> r.value[|prefix| + 1..] == GetGeneratedName(d)[1..]
  {
    var fieldName := GetGeneratedName(d);
    if |fieldName| == 0 then Err(StringIndexOutOfBoundsException)
    else
      var s := prefix + [UpperChar(fieldName[0])] + fieldName[1..];
      assert s[..|prefix|] == prefix;
      Ok(s)
  }

  /** `Field.getGetterMethodName`; `substring(0, 1)` throws on an empty generated name. */
  function GetGetterMethodName(d: FieldDescriptor): Result<string, Throwable> {
    AccessorName("get", d)
  }

  /** `Field.getSetterMethodName`; `substring(0, 1)` throws on an empty generated name. */
  function GetSetterMethodName(d: FieldDescriptor): Result<string, Throwable> {
    AccessorName("set", d)
  }

  /** Getter and setter fail together and differ only in their three-letter prefix. */
  lemma {:induction false} AccessorNamesAgree(d: FieldDescriptor)
    ensures GetGetterMethodName(d).Ok? <==> GetSetterMethodName(d).Ok?
    ensures GetGetterMethodName(d).Ok? ==>
      && GetGetterMethodName(d).value[..3] == "get"
      && GetSetterMethodName(d).value[..3] == "set"
      && GetGetterMethodName(d).value[3..] == GetSetterMethodName(d).value[3..]
  {
    var g, s := GetGetterMethodName(d), GetSetterMethodName(d);
    if g.Ok? {
      var n := GetGeneratedName(d);
      assert g.value[3..] == [UpperChar(n[0])] + n[1..] by {
        assert g.value[3] == UpperChar(n[0]) && g.value[4..] == n[1..];
      }
      assert s.value[3..] == [UpperChar(n[0])] + n[1..] by {
        assert s.value[3] == UpperChar(n[0]) && s.value[4..] == n[1..];
      }
    }
  }

  /** `_count` is generated as `count` with accessors `getCount` and `setCount`; `_` alone has no accessors. */
  lemma UnderscoreNames(d: FieldDescriptor)
    requires d.name == "_count" && d.fieldNameOption.None?
    ensures GetGeneratedName(d) == "count"
    ensures GetGetterMethodName(d) == Ok("getCount")
    ensures GetSetterMethodName(d) == Ok("setCount")
    ensures GetGetterMethodName(d.(name := "_")).Err?
    ensures GetName(d.(name := "__x")) == "_x" && GetName(d.(name := "x")) == "x"
  {
    assert StartsWith("_count", "_");
    assert "_count"[1..] == "count";
    assert UpperChar('c') == 'C';
    assert "get" + ['C'] + "count"[1..] == "getCount";
    assert "set" + ['C'] + "count"[1..] == "setCount";
    assert StartsWith("_", "_");
    assert StartsWith("__x", "_") && "__x"[1..] == "_x";
    assert "x"[..1] == "x";
  }

  /** `Field.mapType`: one case per wire kind. */
  function MapType(javaType: Protobuf.JavaType): Type {
    match javaType
    case INT => INT
    case DOUBLE => DOUBLE
    case FLOAT => FLOAT
    case LONG => LONG
    case BOOLEAN => BOOLEAN
    case MESSAGE => MESSAGE
    case ENUM => ENUM
    case STRING => STRING
    case BYTE_STRING => BYTE_STRING
  }

  /** `mapType` is one-to-one and reaches every `Type`. */
  lemma MapTypeBijective(a: Protobuf.JavaType, b: Protobuf.JavaType, t: Type)
    ensures MapType(a) == MapType(b) ==> a == b
    ensures exists j :: MapType(j) == t
  {
    match t
    case INT => assert MapType(Protobuf.INT) == t;
    case LONG => assert MapType(Protobuf.LONG) == t;
    case FLOAT => assert MapType(Protobuf.FLOAT) == t;
    case DOUBLE => assert MapType(Protobuf.DOUBLE) == t;
    case BOOLEAN => assert MapType(Protobuf.BOOLEAN) == t;
    case STRING => assert MapType(Protobuf.STRING) == t;
    case BYTE_STRING => assert MapType(Protobuf.BYTE_STRING) == t;
    case ENUM => assert MapType(Protobuf.ENUM) == t;
    case MESSAGE => assert MapType(Protobuf.MESSAGE) == t;
  }

  /** `Field.getType`. */
  function GetType(d: FieldDescriptor): Type {
    MapType(d.javaType)
  }

  /** `Field.getMessageType`: fails its `validState` unless the field is a message. */
  function GetMessageType(d: FieldDescriptor): (r: Result<MessageDescriptor, Throwable>)
    requires Valid(d)
    ensures r.Ok? <==> GetType(d) == MESSAGE
    ensures r.Ok? ==> Some(r.value) == d.messageType
    ensures r.Err? ==> r.error == IllegalStateException
  {
    if GetType(d) == MESSAGE then Ok(d.messageType.value) else Err(IllegalStateException)
  }

  /** `Field.getEnumType`: fails its `validState` unless the field is an enum. */
  function GetEnumType(d: FieldDescriptor): (r: Result<EnumDescriptor, Throwable>)
    requires Valid(d)
    ensures r.Ok? <==> GetType(d) == ENUM
    ensures r.Ok? ==> Some(r.value) == d.enumType
    ensures r.Err? ==> r.error == IllegalStateException
  {
    if GetType(d) == ENUM then Ok(d.enumType.value) else Err(IllegalStateException)
  }

  /** `Field.isMap`. */
  predicate IsMap(d: FieldDescriptor)
    requires Valid(d)
    ensures IsMap(d) ==> GetType(d) == MESSAGE && d.messageType.value.isMap
  {
    GetType(d) == MESSAGE && GetMessageType(d).value.isMap
  }

  /** `Field.isUnfolded`. */
  predicate IsUnfolded(d: FieldDescriptor)
    requires Valid(d)
    ensures IsUnfolded(d) ==> GetType(d) == MESSAGE && d.messageType.value.isUnfolded
  {
    GetType(d) == MESSAGE && GetMessageType(d).value.isUnfolded
  }

  /** `Field.getUnfoldedField`: the first field of the wrapper message; fails unless the field is unfolded. */
  function GetUnfoldedField(d: FieldDescriptor): (r: Result<FieldDescriptor, Throwable>)
    requires Valid(d)
    ensures r.Ok? <==> IsUnfolded(d)
    ensures r.Ok? ==> Valid(r.value) && r.value == d.messageType.value.fields[0]
    ensures r.Err? ==> r.error == IllegalStateException
  {
    if IsUnfolded(d) then Ok(GetMessageType(d).value.fields[0]) else Err(IllegalStateException)
  }

  /** `Field.isNullable`: optional, or the unfolded inner field is nullable, or a oneof member. */
  predicate IsNullable(d: FieldDescriptor)
    requires Valid(d)
    decreases d
  {
    || d.hasOptionalKeyword
    || (IsUnfolded(d) && GetUnfoldedField(d).Ok? && IsNullable(GetUnfoldedField(d).value))
    || d.inOneof
  }

  /** The field followed by the fields it unfolds to, innermost last. */
  function UnfoldedChain(d: FieldDescriptor): (r: seq<FieldDescriptor>)
    requires Valid(d)
    ensures |r| >= 1 && r[0] == d
    decreases d
  {
    if IsUnfolded(d) then [d] + UnfoldedChain(GetUnfoldedField(d).value) else [d]
  }

  /** A field is nullable exactly when some field along its unfolding chain is optional or in a oneof. */
  lemma {:induction false} NullableAlongChain(d: FieldDescriptor)
    requires Valid(d)
    ensures IsNullable(d) <==>
      exists i :: 0 <= i < |UnfoldedChain(d)| && (UnfoldedChain(d)[i].hasOptionalKeyword || UnfoldedChain(d)[i].inOneof)
    decreases d
  {
    var chain := UnfoldedChain(d);
    if IsUnfolded(d) {
      var inner := GetUnfoldedField(d).value;
      NullableAlongChain(inner);
      var rest := UnfoldedChain(inner);
      assert chain == [d] + rest;
      if IsNullable(d) {
        if !(d.hasOptionalKeyword || d.inOneof) {
          var i :| 0 <= i < |rest| && (rest[i].hasOptionalKeyword || rest[i].inOneof);
          assert chain[i + 1] == rest[i];
        } else {
          assert chain[0] == d;
        }
      } else {
        forall i | 0 <= i < |chain|
          ensures !(chain[i].hasOptionalKeyword || chain[i].inOneof)
        {
          if i > 0 { assert chain[i] == rest[i - 1]; }
        }
      }
    } else {
      assert chain == [d];
    }
  }

  /** `Field.isList`. */
  predicate IsList(d: FieldDescriptor) {
    d.isRepeated
  }

  /** `Field.isUnused`: the `unusedField` option, false when absent. */
  predicate IsUnused(d: FieldDescriptor)
    ensures IsUnused(d) <==> d.unusedFieldOption == Some(true)
  {
    d.unusedFieldOption.GetOr(false)
  }

  /** `Field.getRepeatedContainer`: the `repeatedContainer` option, LIST when absent. */
  function GetRepeatedContainer(d: FieldDescriptor): (r: RepeatedContainer)
    ensures d.repeatedContainerOption.None? ==> r == LIST
    ensures d.repeatedContainerOption.Some? ==> r == d.repeatedContainerOption.value
  {
    d.repeatedContainerOption.GetOr(LIST)
  }

  /** The wrapper object: an immutable descriptor and the `needGetterInOriginalClass` side channel. */
  class Field {
    const descriptor: FieldDescriptor
    var needGetterInOriginalClass: bool

    /** The flag starts out false. */
    constructor (descriptor: FieldDescriptor)
      ensures this.descriptor == descriptor
      ensures !GetNeedGetterInOriginalClass()
    {
      this.descriptor := descriptor;
      needGetterInOriginalClass := false;
    }

    function GetNeedGetterInOriginalClass(): bool
      reads this
    {
      needGetterInOriginalClass
    }

    /** The getter returns the last value set. */
    method SetNeedGetterInOriginalClass(value: bool)
      modifies this
      ensures GetNeedGetterInOriginalClass() == value
    {
      needGetterInOriginalClass := value;
    }
  }
}
