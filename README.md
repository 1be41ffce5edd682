# ProtoGenV2 field layer, modelled in Dafny

ProtoGenV2 generates Java code that maps protobuf messages to domain classes and back. This project models the part of it that handles one field of a message:

- **`Field`** (module `Descriptors`) wraps a protobuf field descriptor. It derives the field's names: the original name, the name with one leading `_` stripped, the override-aware generated name, and the getter and setter names. It maps the wire kind to the generator's `Type`, and decides nullability (`optional`, inside a `oneof`, or an unfolded wrapper whose inner field is nullable). It also carries one mutable flag, `needGetterInOriginalClass`, which other generators read back.
- **`AttributeVisibilityAnalyzerMultiProject`** (module `VisibilityAnalyzer`) decides whether generated code must reach a domain-class field through its getter:
  - it finds the class's source file in the first source root that has one;
  - it walks the `extends` chain; each superclass file is looked up by import, then same package, then same directory, then the dotted name itself;
  - when a superclass has no source file, it asks runtime reflection;
  - the answer is `true` only when the field is first found in a superclass and declared there `private` or `protected`.
- **`FieldTransformerGenerator`** (module `FieldTransformer`) builds the two conversion fragments:
  - domain to wire: a setter call, guarded by a null check when the field is nullable and its type name does not look primitive;
  - wire to domain: a getter call, wrapped in a `has…() ? … : null` ternary when the field is nullable.
- **`FieldGenerator.generate`** (module `FieldGeneration`) does the per-field work, in order:
  1. it skips unused fields;
  2. it asks the analyzer about the domain class, which is the message name with one leading `Grpc` removed;
  3. it treats any exception as "no getter" and stores the answer on the `Field`;
  4. it names the field spec after the getter or after the original name;
  5. it attaches a nullability annotation when the type is not primitive or void and the file's policy says so.

Module `CodeModel` gives JavaPoet code fragments a small meaning:
- `Run`: the method invocations the generated code performs;
- `Evaluate`: the value an expression fragment yields.

With these, the lemmas state what the generated code does at run time, not only its shape.

Environment and foreign code are inputs, not computations:
- **Analyzer environment.** The file system, the Java parser and `Class.forName` become the tables of a `Workspace`: existing paths, directory trees, parsed files and loadable classes.
- **Generation context.** The type manager, the nullability-annotation policy and `Name.toCamelCase` are function-valued parameters.

The analyzer's recursion up the `extends` chain has no cycle guard. The model bounds it with a `fuel` count:
- running out of fuel gives `HierarchyTooDeep`, which stands for the `StackOverflowError` a cyclic chain causes;
- `FieldGenerator`'s `catch (Exception e)` does not catch that error, so `generate` fails with it rather than answering `false`;
- `SelfExtendingClassNeverAnswers` proves that a class whose superclass lookup returns its own file never answers.

`AnalyzeFuelMonotone` proves that the fuel bound changes nothing else: any answer reached with some fuel is the same with more.

Two consequences of the code as written:
- **Boxed types lose their null guard.** The primitive test lower-cases the simple name. So `Boolean`, `Byte`, `Short`, `Long`, `Float` and `Double`, bare or qualified as in `java.lang.Long`, count as primitive, and a nullable field of such a type gets no null check (`BoxedTypeIsPrimitive`). `Integer` and `String` do not count (`BoxedIntegerIsNotPrimitive`, `StringIsNotPrimitive`).
- **The getter-name failure escapes `generate`.** `generate` stores the analyzer's answer on the field before it computes the getter name. That name is computed outside the `try` block. So with an empty generated name and a `true` answer, the flag is set and `generate` then fails with `StringIndexOutOfBoundsException` (`GetterIdentifier`).

## Model

| member | source | states |
|---|---|---|
| Descriptors.StripLeadingUnderscore | generator/src/main/java/org/sudu/protogen/descriptors/Field.java:26-33 | the result is the input with exactly one leading `_` removed when it starts with `_`, and the input unchanged otherwise |
| Descriptors.GetName | generator/src/main/java/org/sudu/protogen/descriptors/Field.java:26-33 | the descriptor name with one leading `_` removed, by the rule `StripLeadingUnderscore` states; `NameRoundTrip` recovers the original name from it |
| Descriptors.GetOriginalName | generator/src/main/java/org/sudu/protogen/descriptors/Field.java:39-41 | the descriptor name as written; `NameRoundTrip` rebuilds it from `getName` and `hadLeadingUnderscore` |
| Descriptors.HadLeadingUnderscore | generator/src/main/java/org/sudu/protogen/descriptors/Field.java:112-114 | true exactly when the original name starts with `_`; by `NameRoundTrip`, exactly when `getName` dropped one character |
| Descriptors.NameRoundTrip | generator/src/main/java/org/sudu/protogen/descriptors/Field.java:26-41 | the original name is `_` (exactly when `hadLeadingUnderscore`) followed by `getName` |
| Descriptors.GetGeneratedName | generator/src/main/java/org/sudu/protogen/descriptors/Field.java:97-105 | the `fieldName` option when present, else the original name, with one leading `_` removed; `GeneratedNameOverride` states both cases |
| Descriptors.GeneratedNameOverride | generator/src/main/java/org/sudu/protogen/descriptors/Field.java:97-105 | without an override the generated name equals `getName`; with one it is the override with one leading `_` stripped and does not depend on the descriptor name |
| Descriptors.AccessorName | generator/src/main/java/org/sudu/protogen/descriptors/Field.java:122-138 | fails with `StringIndexOutOfBoundsException` exactly when the generated name is empty; otherwise the prefix, the upper-cased first character, then the rest of the generated name |
| Descriptors.GetGetterMethodName | generator/src/main/java/org/sudu/protogen/descriptors/Field.java:122-126 | `AccessorName` with prefix `get`: fails with `StringIndexOutOfBoundsException` exactly on an empty generated name, else `get` and the capitalised generated name |
| Descriptors.GetSetterMethodName | generator/src/main/java/org/sudu/protogen/descriptors/Field.java:134-138 | `AccessorName` with prefix `set`; `AccessorNamesAgree` shows it fails exactly when the getter does and agrees with it after the prefix |
| Descriptors.AccessorNamesAgree | generator/src/main/java/org/sudu/protogen/descriptors/Field.java:122-138 | getter and setter names fail together, start with `get` and `set`, and agree after the prefix |
| Descriptors.UnderscoreNames | generator/src/main/java/org/sudu/protogen/descriptors/Field.java:116-126 | `_count` gives generated name `count`, `getCount` and `setCount`; a name `_` makes the getter fail; `getName` maps `__x` to `_x` and `x` to `x` |
| Descriptors.MapType | generator/src/main/java/org/sudu/protogen/descriptors/Field.java:167-189 | one `Type` per wire kind, case by case; `MapTypeBijective` proves the mapping one-to-one and onto |
| Descriptors.MapTypeBijective | generator/src/main/java/org/sudu/protogen/descriptors/Field.java:167-189 | `mapType` is one-to-one and reaches every `Type` |
| Descriptors.GetType | generator/src/main/java/org/sudu/protogen/descriptors/Field.java:47-49 | the mapped wire kind of the descriptor; by `MapTypeBijective`, two descriptors have the same `Type` exactly when they have the same wire kind |
| Descriptors.GetMessageType | generator/src/main/java/org/sudu/protogen/descriptors/Field.java:51-54 | succeeds exactly for a message field, with the descriptor's message type; otherwise `IllegalStateException` |
| Descriptors.GetEnumType | generator/src/main/java/org/sudu/protogen/descriptors/Field.java:56-59 | succeeds exactly for an enum field, with the descriptor's enum type; otherwise `IllegalStateException` |
| Descriptors.IsMap | generator/src/main/java/org/sudu/protogen/descriptors/Field.java:73-76 | a map field is a message field whose message is a map entry |
| Descriptors.IsUnfolded | generator/src/main/java/org/sudu/protogen/descriptors/Field.java:78-80 | an unfolded field is a message field whose message is unfolded |
| Descriptors.GetUnfoldedField | generator/src/main/java/org/sudu/protogen/descriptors/Field.java:86-89 | succeeds exactly for an unfolded field, with the first field of its message; otherwise `IllegalStateException` |
| Descriptors.IsNullable | generator/src/main/java/org/sudu/protogen/descriptors/Field.java:65-67 | `optional`, or unfolded with a nullable inner field, or in a `oneof`; `NullableAlongChain` characterises it over the whole unfolding chain |
| Descriptors.NullableAlongChain | generator/src/main/java/org/sudu/protogen/descriptors/Field.java:65-67 | a field is nullable exactly when some field along its chain of unfolded inner fields is `optional` or in a `oneof` |
| Descriptors.IsList | generator/src/main/java/org/sudu/protogen/descriptors/Field.java:69-71 | true exactly for repeated fields |
| Descriptors.IsUnused | generator/src/main/java/org/sudu/protogen/descriptors/Field.java:82-84 | unused exactly when the `unusedField` option is present and true |
| Descriptors.GetRepeatedContainer | generator/src/main/java/org/sudu/protogen/descriptors/Field.java:140-142 | the option's container when present, `LIST` when absent |
| Descriptors.Field.constructor | generator/src/main/java/org/sudu/protogen/descriptors/Field.java:13-24 | a new field holds its descriptor and its flag starts false |
| Descriptors.Field.GetNeedGetterInOriginalClass | generator/src/main/java/org/sudu/protogen/descriptors/Field.java:16-18 | the stored flag: false after the constructor, the last value set after `SetNeedGetterInOriginalClass` |
| Descriptors.Field.SetNeedGetterInOriginalClass | generator/src/main/java/org/sudu/protogen/descriptors/Field.java:16-21 | the getter returns the value last set, and nothing else about the field changes |
| Text.AfterLastMeaning | generator/src/main/java/org/sudu/protogen/generator/field/AttributeVisibilityAnalyzerMultiProject.java:238-241 | the text after the last `.` holds no `.`, is the whole input when there is no `.`, and is otherwise a suffix that directly follows a `.` |
| VisibilityAnalyzer.GetClassNameFromImport | generator/src/main/java/org/sudu/protogen/generator/field/AttributeVisibilityAnalyzerMultiProject.java:238-241 | the text after the last `.`, or the whole name: `AfterLastMeaning` characterises it and `QualifiedImportName` gives `C` for `p.C` |
| VisibilityAnalyzer.QualifiedImportName | generator/src/main/java/org/sudu/protogen/generator/field/AttributeVisibilityAnalyzerMultiProject.java:238-241 | the class name of import `p.C` is `C` for any package text `p` |
| VisibilityAnalyzer.ConvertImportToFilePath | generator/src/main/java/org/sudu/protogen/generator/field/AttributeVisibilityAnalyzerMultiProject.java:221-224 | the path is the root, a separator, the name with each `.` turned into a separator, then `.java`, position by position |
| VisibilityAnalyzer.ConvertPackageToFilePath | generator/src/main/java/org/sudu/protogen/generator/field/AttributeVisibilityAnalyzerMultiProject.java:229-233 | the root, the package as directories, then `C.java`; `PackagePathIsImportPath` shows it is the import path of `p.C` |
| VisibilityAnalyzer.PackagePathIsImportPath | generator/src/main/java/org/sudu/protogen/generator/field/AttributeVisibilityAnalyzerMultiProject.java:229-233 | the same-package path of class `C` in package `p` is the import path of `p.C` |
| VisibilityAnalyzer.GetCurrentPackage | generator/src/main/java/org/sudu/protogen/generator/field/AttributeVisibilityAnalyzerMultiProject.java:178-181 | the declared package name, or the empty string when there is none, which makes `SamePackageHit` false so the same-package case is skipped |
| VisibilityAnalyzer.GetClassByName | generator/src/main/java/org/sudu/protogen/generator/field/AttributeVisibilityAnalyzerMultiProject.java:93-96 | a class of that name from the file when there is one; otherwise the file declares no class of that name |
| VisibilityAnalyzer.GetClassByNameIsFirst | generator/src/main/java/org/sudu/protogen/generator/field/AttributeVisibilityAnalyzerMultiProject.java:93-96 | a class found is the first class of that name in declaration order |
| VisibilityAnalyzer.ImportMap | generator/src/main/java/org/sudu/protogen/generator/field/AttributeVisibilityAnalyzerMultiProject.java:161-173 | the map after the imports in order; `ImportMapLastWins` characterises its bindings and `BuildImportMap` computes it |
| VisibilityAnalyzer.ImportMapLastWins | generator/src/main/java/org/sudu/protogen/generator/field/AttributeVisibilityAnalyzerMultiProject.java:161-173 | a simple name is bound exactly when some non-asterisk import has it, and it is bound to the last such import |
| VisibilityAnalyzer.BuildImportMap | generator/src/main/java/org/sudu/protogen/generator/field/AttributeVisibilityAnalyzerMultiProject.java:161-173 | the loop builds exactly the map of the imports in order |
| VisibilityAnalyzer.DetermineSuperClassPath | generator/src/main/java/org/sudu/protogen/generator/field/AttributeVisibilityAnalyzerMultiProject.java:186-216 | null exactly when no import, no existing same-package file, no existing same-directory file under the root and no dot apply; a path that does not exist can only come from an import or the dotted name; `ImportDecidesPath` and `PathPriorityWithoutImport` give the value of each case |
| VisibilityAnalyzer.ImportDecidesPath | generator/src/main/java/org/sudu/protogen/generator/field/AttributeVisibilityAnalyzerMultiProject.java:189-193 | an import decides the path, whichever files exist, and blocks the later cases for that root |
| VisibilityAnalyzer.PathPriorityWithoutImport | generator/src/main/java/org/sudu/protogen/generator/field/AttributeVisibilityAnalyzerMultiProject.java:195-213 | without an import, an existing same-package file wins; only then an existing same-directory file under the root; only then, for a dotted name, that name taken literally as an import path under the root |
| VisibilityAnalyzer.SuperClassFileFrom | generator/src/main/java/org/sudu/protogen/generator/field/AttributeVisibilityAnalyzerMultiProject.java:144-155 | the path determined for the first root, in order, whose path exists, or null; `SuperClassFileIsFirstHit` characterises it |
| VisibilityAnalyzer.SuperClassFile | generator/src/main/java/org/sudu/protogen/generator/field/AttributeVisibilityAnalyzerMultiProject.java:136-156 | `SuperClassFileFrom` with the file's import map and package; `FindSuperClassFile` computes it |
| VisibilityAnalyzer.SuperClassFileIsFirstHit | generator/src/main/java/org/sudu/protogen/generator/field/AttributeVisibilityAnalyzerMultiProject.java:136-156 | no root gives a hit exactly when the search returns null; otherwise it returns the path determined for the first root whose path exists |
| VisibilityAnalyzer.ImportedSuperClassFile | generator/src/main/java/org/sudu/protogen/generator/field/AttributeVisibilityAnalyzerMultiProject.java:136-156 | an imported superclass is only ever found at the import path under one of the roots |
| VisibilityAnalyzer.FindSuperClassFile | generator/src/main/java/org/sudu/protogen/generator/field/AttributeVisibilityAnalyzerMultiProject.java:136-156 | the root loop computes the first-hit function, and a returned file exists |
| VisibilityAnalyzer.FieldInChainAbsent | generator/src/main/java/org/sudu/protogen/generator/field/AttributeVisibilityAnalyzerMultiProject.java:263-273 | the reflective lookup finds nothing exactly when no class on the superclass chain declares the field |
| VisibilityAnalyzer.FieldInChain | generator/src/main/java/org/sudu/protogen/generator/field/AttributeVisibilityAnalyzerMultiProject.java:263-273 | the declaration found on the way up the superclass chain; `FieldInChainAbsent` and `FieldInChainIsNearest` characterise it and `FindFieldReflectively` computes it |
| VisibilityAnalyzer.FieldInChainIsNearest | generator/src/main/java/org/sudu/protogen/generator/field/AttributeVisibilityAnalyzerMultiProject.java:263-273 | a found field is the declaration of the nearest class on the chain that declares it |
| VisibilityAnalyzer.FindFieldReflectively | generator/src/main/java/org/sudu/protogen/generator/field/AttributeVisibilityAnalyzerMultiProject.java:263-273 | the `while` loop up the chain computes the reflective lookup |
| VisibilityAnalyzer.ReflectionFallbackMeaning | generator/src/main/java/org/sudu/protogen/generator/field/AttributeVisibilityAnalyzerMultiProject.java:246-258 | true exactly when the class loads and the nearest declaration on its chain is private or protected; an unknown class or an absent field gives false |
| VisibilityAnalyzer.ReflectionFallback | generator/src/main/java/org/sudu/protogen/generator/field/AttributeVisibilityAnalyzerMultiProject.java:246-258 | the fallback answer, characterised by `ReflectionFallbackMeaning` and computed by `HandleReflectionFallback` |
| VisibilityAnalyzer.HandleReflectionFallback | generator/src/main/java/org/sudu/protogen/generator/field/AttributeVisibilityAnalyzerMultiProject.java:246-258 | the method computes the fallback answer |
| VisibilityAnalyzer.FirstClassFile | generator/src/main/java/org/sudu/protogen/generator/field/AttributeVisibilityAnalyzerMultiProject.java:297-312 | the first file, in listing order, named `C.java` that parses and declares `C`; none when there is no such file |
| VisibilityAnalyzer.FirstClassFileAppend | generator/src/main/java/org/sudu/protogen/generator/field/AttributeVisibilityAnalyzerMultiProject.java:297-312 | the search of two listings one after the other answers from the first listing when it can |
| VisibilityAnalyzer.FindJavaFileInFolder | generator/src/main/java/org/sudu/protogen/generator/field/AttributeVisibilityAnalyzerMultiProject.java:291-314 | the recursive folder walk returns the first class file of the folder's depth-first listing |
| VisibilityAnalyzer.FolderClassFile | generator/src/main/java/org/sudu/protogen/generator/field/AttributeVisibilityAnalyzerMultiProject.java:291-314 | nothing for a non-directory, else the first class file of the depth-first listing; `FindJavaFileInFolder` computes it |
| VisibilityAnalyzer.EarliestRootWins | generator/src/main/java/org/sudu/protogen/generator/field/AttributeVisibilityAnalyzerMultiProject.java:278-286 | none exactly when no root holds the class; otherwise the class file of the first root that holds it |
| VisibilityAnalyzer.RootClassFile | generator/src/main/java/org/sudu/protogen/generator/field/AttributeVisibilityAnalyzerMultiProject.java:279-283 | what one root yields: the folder search at that root, nothing when the root is not a listed directory; `EarliestRootWins` is stated over it |
| VisibilityAnalyzer.JavaFileForClass | generator/src/main/java/org/sudu/protogen/generator/field/AttributeVisibilityAnalyzerMultiProject.java:278-286 | the class file of the first root that holds one; `EarliestRootWins` characterises it and `FindJavaFileForClass` computes it |
| VisibilityAnalyzer.FindJavaFileForClass | generator/src/main/java/org/sudu/protogen/generator/field/AttributeVisibilityAnalyzerMultiProject.java:278-286 | the root loop computes the multi-root search |
| VisibilityAnalyzer.DeclaredVisibility | generator/src/main/java/org/sudu/protogen/generator/field/AttributeVisibilityAnalyzerMultiProject.java:101-112 | none exactly when no field declaration names the attribute; otherwise the visibility of the first declaration that does |
| VisibilityAnalyzer.ScanFields | generator/src/main/java/org/sudu/protogen/generator/field/AttributeVisibilityAnalyzerMultiProject.java:101-112 | the nested loops with early return find the first declaration's visibility |
| VisibilityAnalyzer.Analyze | generator/src/main/java/org/sudu/protogen/generator/field/AttributeVisibilityAnalyzerMultiProject.java:91-96 | out of fuel, then a parse failure, then "class not found in file", then the class analysis; `AnalyzeClassRecursive` computes it, `AnalyzeFuelMonotone` and `AnalyzeNeverClassFileNotFound` constrain it |
| VisibilityAnalyzer.AnalyzeClass | generator/src/main/java/org/sudu/protogen/generator/field/AttributeVisibilityAnalyzerMultiProject.java:98-131 | the field test, then the first extended type analysed as a superclass, or the reflection fallback; `DeclaredHereNeedsNoGetter`, `InheritedNeedsGetterIffRestricted`, `OnlyFirstExtendedType`, `FlagIrrelevantWithoutDeclaration` and `InheritedThroughSourceSuperclass` characterise it |
| VisibilityAnalyzer.DeclaredHereNeedsNoGetter | generator/src/main/java/org/sudu/protogen/generator/field/AttributeVisibilityAnalyzerMultiProject.java:103-105 | a field declared in the originating class gives false whatever its visibility |
| VisibilityAnalyzer.InheritedNeedsGetterIffRestricted | generator/src/main/java/org/sudu/protogen/generator/field/AttributeVisibilityAnalyzerMultiProject.java:106-109 | a field first found in a superclass gives true exactly when that first declaration is private or protected |
| VisibilityAnalyzer.OnlyFirstExtendedType | generator/src/main/java/org/sudu/protogen/generator/field/AttributeVisibilityAnalyzerMultiProject.java:115-130 | with no matching field, only the first extended type matters, and no `extends` gives false |
| VisibilityAnalyzer.InheritedThroughSourceSuperclass | generator/src/main/java/org/sudu/protogen/generator/field/AttributeVisibilityAnalyzerMultiProject.java:101-123 | a field the class does not declare, first declared by a superclass with a source file, gives that declaration's private-or-protected test whatever flag the class was analysed with |
| VisibilityAnalyzer.FlagIrrelevantWithoutDeclaration | generator/src/main/java/org/sudu/protogen/generator/field/AttributeVisibilityAnalyzerMultiProject.java:101-130 | a class that does not declare the field answers the same as originating class and as superclass, so the recursion runs as a superclass |
| VisibilityAnalyzer.AnalyzeFuelMonotone | generator/src/main/java/org/sudu/protogen/generator/field/AttributeVisibilityAnalyzerMultiProject.java:91-131 | every answer other than running out of depth stays the same with more fuel |
| VisibilityAnalyzer.AnalyzeClassFuelMonotone | generator/src/main/java/org/sudu/protogen/generator/field/AttributeVisibilityAnalyzerMultiProject.java:98-131 | the same for the analysis of a class already found in its file |
| VisibilityAnalyzer.AnalyzeNeverClassFileNotFound | generator/src/main/java/org/sudu/protogen/generator/field/AttributeVisibilityAnalyzerMultiProject.java:91-131 | the recursion raises parse, class-not-in-file and depth failures, never "class file not found" |
| VisibilityAnalyzer.SelfExtendingClassNeverAnswers | generator/src/main/java/org/sudu/protogen/generator/field/AttributeVisibilityAnalyzerMultiProject.java:115-123 | a class whose superclass lookup returns its own file, with no matching field, recurses until the depth runs out, whatever the fuel |
| VisibilityAnalyzer.AnalyzeClassRecursive | generator/src/main/java/org/sudu/protogen/generator/field/AttributeVisibilityAnalyzerMultiProject.java:91-131 | the method computes the recursive analysis |
| VisibilityAnalyzer.NeedGetterOf | generator/src/main/java/org/sudu/protogen/generator/field/AttributeVisibilityAnalyzerMultiProject.java:73-80 | "class file not found" when no root holds the class, else the analysis of its file as the originating class; `NeedGetter` computes it |
| VisibilityAnalyzer.NeedGetter | generator/src/main/java/org/sudu/protogen/generator/field/AttributeVisibilityAnalyzerMultiProject.java:73-80 | the answer is the analysis of the class file, run as the originating class; "class file not found" comes exactly when no root holds the class |
| VisibilityAnalyzer.NeedGetterThroughSourceSuperclass | generator/src/main/java/org/sudu/protogen/generator/field/AttributeVisibilityAnalyzerMultiProject.java:73-123 | for a domain class that does not declare the field and a source superclass that does, `needGetter` is true exactly when that declaration is private or protected |
| VisibilityAnalyzer.NeedGetterSinglePath | generator/src/main/java/org/sudu/protogen/generator/field/AttributeVisibilityAnalyzerMultiProject.java:85-89 | the single-path overload is the multi-root one over that one root |
| FieldTransformer.IsPrimitiveType | generator/src/main/java/org/sudu/protogen/generator/message/FieldTransformerGenerator.java:35-39 | the lower-cased text after the last `.` is one of `PRIMITIVE_TYPE_NAMES`; `SimpleNamePrimitive`, `PrimitiveTypeIgnoresPackage` and `PrimitiveTypeIgnoresCase` characterise it |
| FieldTransformer.PrimitiveTypeIgnoresPackage | generator/src/main/java/org/sudu/protogen/generator/message/FieldTransformerGenerator.java:35-39 | a package in front of a simple name never changes the primitive test |
| FieldTransformer.PrimitiveTypeIgnoresCase | generator/src/main/java/org/sudu/protogen/generator/message/FieldTransformerGenerator.java:35-39 | a type name and its lower-cased copy are both primitive or both not |
| FieldTransformer.SimpleNamePrimitive | generator/src/main/java/org/sudu/protogen/generator/message/FieldTransformerGenerator.java:31-39 | a dotless name, with or without a package, is primitive exactly when its lower-cased form is one of the eight keywords |
| FieldTransformer.BoxedTypeIsPrimitive | generator/src/main/java/org/sudu/protogen/generator/message/FieldTransformerGenerator.java:35-39 | `Boolean`, `Byte`, `Short`, `Long`, `Float` and `Double`, bare or as `p.Long`, count as primitive |
| FieldTransformer.BoxedIntegerIsNotPrimitive | generator/src/main/java/org/sudu/protogen/generator/message/FieldTransformerGenerator.java:35-39 | `Integer` and `p.Integer` do not count as primitive |
| FieldTransformer.StringIsNotPrimitive | generator/src/main/java/org/sudu/protogen/generator/message/FieldTransformerGenerator.java:35-39 | `String` and `p.String` do not count as primitive |
| FieldTransformer.FieldTransformerGenerator.ToGrpc | generator/src/main/java/org/sudu/protogen/generator/message/FieldTransformerGenerator.java:50-78 | nullable with a `PrimitiveTypeModel` fails its `validState`; nullable otherwise gives a guarded statement exactly when the type name is not primitive-looking, else an unguarded one; non-nullable gives a statement exactly when the builder name is non-empty, else the bare setter call |
| FieldTransformer.FieldTransformerGenerator.SetterCall | generator/src/main/java/org/sudu/protogen/generator/message/FieldTransformerGenerator.java:51-54 | the setter of the proto name called on the builder with the converted value; `SetterGuardedByNullCheck` and `SetterUnguarded` state what running it calls |
| FieldTransformer.FieldTransformerGenerator.FromGrpc | generator/src/main/java/org/sudu/protogen/generator/message/FieldTransformerGenerator.java:88-105 | the converted getter call, wrapped in a `has` ternary exactly when nullable; nullable with a `PrimitiveTypeModel` fails its `validState` |
| FieldTransformer.FieldTransformerGenerator.GetterCall | generator/src/main/java/org/sudu/protogen/generator/message/FieldTransformerGenerator.java:89-91 | the getter of the proto name called on the parameter; `HasCheckUsesCamelCasedName` states it is the converted value inside the `has` ternary |
| FieldTransformer.SetterGuardedByNullCheck | generator/src/main/java/org/sudu/protogen/generator/message/FieldTransformerGenerator.java:55-71 | for a guarded field, running the code with a null value calls nothing; with a value, it runs the conversion and then calls the setter |
| FieldTransformer.SetterUnguarded | generator/src/main/java/org/sudu/protogen/generator/message/FieldTransformerGenerator.java:59-77 | for a non-nullable or primitive-looking field, the code always runs the conversion and then calls the setter |
| FieldTransformer.FromGrpcAbsentIsNull | generator/src/main/java/org/sudu/protogen/generator/message/FieldTransformerGenerator.java:97-105 | for a nullable field the code first calls `has…`; with the has-bit clear it yields null and calls nothing else, with it set it yields the converted value |
| FieldTransformer.NewFieldTransformerGenerator | generator/src/main/java/org/sudu/protogen/generator/message/FieldTransformerGenerator.java:17-21 | keeps the type model and the nullability and camel-cases the proto name once; `SetterUsesCamelCasedName` and `HasCheckUsesCamelCasedName` show the generated code uses that name |
| FieldTransformer.SetterUsesCamelCasedName | generator/src/main/java/org/sudu/protogen/generator/message/FieldTransformerGenerator.java:17-21 | the setter called is the type's setter of the camel-cased proto name |
| FieldTransformer.HasCheckUsesCamelCasedName | generator/src/main/java/org/sudu/protogen/generator/message/FieldTransformerGenerator.java:17-21 | the `has` check and the getter both use the same camel-cased proto name |
| FieldGeneration.StripGrpcPrefix | generator/src/main/java/org/sudu/protogen/generator/field/FieldGenerator.java:32-33 | one leading `Grpc` is removed when present; otherwise the name is unchanged |
| FieldGeneration.GrpcPrefixRoundTrip | generator/src/main/java/org/sudu/protogen/generator/field/FieldGenerator.java:32-33 | `Grpc` + name gives back the name, and only one prefix is removed |
| FieldGeneration.AnalyzerAnswer | generator/src/main/java/org/sudu/protogen/generator/field/FieldGenerator.java:30-40 | `needGetter` for the stripped message name and the original field name; `AnalyzerFailureMeansNoGetter`, `MissingDomainClassMeansNoGetter` and `ReflectedSuperclassDecides` state its effect |
| FieldGeneration.NeedGetterDecision | generator/src/main/java/org/sudu/protogen/generator/field/FieldGenerator.java:35-43 | true exactly for a true answer, false for a false answer or any caught exception; no decision when a stack overflow escapes the catch |
| FieldGeneration.NullabilityAnnotation | generator/src/main/java/org/sudu/protogen/generator/field/FieldGenerator.java:56-60 | an annotation, carrying the field's nullability, exactly when the type is not primitive or void and the file policy accepts that nullability |
| FieldGeneration.GenerateOutcome | generator/src/main/java/org/sudu/protogen/generator/field/FieldGenerator.java:23-63 | unused gives the empty result with no flag change; otherwise the flag is the analyzer's answer (false on exception); failures are only the escaping stack overflow or the getter-name failure; a built spec has the processed type, the original or getter identifier, the field's nullability and the gated annotation |
| FieldGeneration.Generate | generator/src/main/java/org/sudu/protogen/generator/field/FieldGenerator.java:23-63 | the method returns the outcome's result, and leaves the field's flag set to the outcome's flag, or unchanged when there is none |
| FieldGeneration.UnusedFieldIgnoresContext | generator/src/main/java/org/sudu/protogen/generator/field/FieldGenerator.java:24-26 | an unused field's outcome depends on nothing in the context and never touches the flag |
| FieldGeneration.AnalyzerFailureMeansNoGetter | generator/src/main/java/org/sudu/protogen/generator/field/FieldGenerator.java:35-52 | any caught analyzer failure leaves the flag false and names the spec after the original name |
| FieldGeneration.MissingDomainClassMeansNoGetter | generator/src/main/java/org/sudu/protogen/generator/field/FieldGenerator.java:35-52 | when no root holds the domain class, the flag is false and the spec keeps the original name |
| FieldGeneration.NoGetterKeepsOriginalName | generator/src/main/java/org/sudu/protogen/generator/field/FieldGenerator.java:47-52 | without a getter the identifier is the original name, whatever the name override says |
| FieldGeneration.GetterIdentifier | generator/src/main/java/org/sudu/protogen/generator/field/FieldGenerator.java:46-52 | with a getter needed the flag is true and the identifier is `get` + capitalised generated name, or generation fails when that name is empty |
| FieldGeneration.ReflectedSuperclassDecides | generator/src/main/java/org/sudu/protogen/generator/field/FieldGenerator.java:35-46 | when the domain class's superclass has no source file, the stored flag is the reflection fallback's answer |

## Left out

- `discoverJavaProjects`, `containsJavaFiles` and `main` (AttributeVisibilityAnalyzerMultiProject.java lines 22-68 and 317-328): directory discovery and console output, outside the decision logic.
- `GrpcMethodInjector.java`: it edits Java sources through the JavaParser library and writes files; it is not part of this model.
- Parsing and reflection: `StaticJavaParser.parse`, `getClassByName` and `Class.forName` are the `parsed` and `loadable` tables of a `Workspace`. A file missing from `parsed` stands for any parse exception.
- Reflection details: a reflective class is a value with its declared fields and an embedded superclass, so a chain is finite by construction. `getModifiers` is reduced to a visibility.
- Interfaces: `getClassByName` is modelled over the classes of a file only; interface declarations and nested classes are not represented.
- File system: paths are strings with the separator fixed as `/`, and `getAbsolutePath` is the identity. `new File(parent, child)` is parent, separator, child. A directory tree is an `Entry` value in listing order, so `listFiles` returning null and symbolic-link cycles are not represented.
- Root order: `projectPaths` is a `HashSet`, whose iteration order is unspecified; the roots are a sequence, and first-match is proved in that order.
- Depth: the unbounded recursion of `analyzeClassRecursive` is bounded by `fuel`; running out stands for the stack overflow of a cyclic `extends` chain. The model gives the program's answer only when the fuel is at least the number of classes on the `extends` chain analysed; a smaller fuel on an acyclic chain reports `HierarchyTooDeep` where the program answers, and by `AnalyzeFuelMonotone` once some fuel gives an answer, every larger fuel gives the same one.
- Configured roots in `FieldGenerator`: the hard-coded Windows root at line 38 is configuration; the model takes the roots from `GenerationContext.projectPaths`.
- Case mapping: `toUpperCase` and `toLowerCase` are ASCII-only.
- JavaPoet: `CodeBlock` formatting is kept only as the fragment shapes the generators build. `FieldSpec.Builder` is the finished name, type and annotation; `FieldSpec` name validation is not modelled.
- Context functions: the `TypeModel` internals, `typeManager().processType`, `Name.toCamelCase` and `doUseNullabilityAnnotation` are function-valued inputs.
- Annotation content: `Poem.attachNullabilityAnnotations` is recorded only as "an annotation for this nullability".
- Descriptor options: the protogen options are `Option` values in the descriptor record. Every repeated-container kind other than `LIST` is represented by `SET`.
- Recursive message types: a descriptor is an acyclic value, so a message that contains itself through unfolded fields is not representable.
- Diagnostics: `printStackTrace` and `System.err` output are not modelled.
- Descriptors.IsNullable: stated through `NullableAlongChain` over the chain of unfolded fields, not as a contract of its own.
- Field.getFullName and Field.getContainingMessage: the containing message is reduced to its name, the only part `generate` reads; the full name is not used by the core.
