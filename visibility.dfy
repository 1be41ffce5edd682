/**
 * `AttributeVisibilityAnalyzerMultiProject`: decides whether generated code must reach a field of a
 * domain class through its getter, by walking the class's `extends` chain across several source roots
 * and falling back to runtime reflection for a superclass that has no source file.
 *
 * The file system, the Java parser and `Class.forName` are replaced by the tables of a `Workspace`.
 */
module VisibilityAnalyzer {
  import opened Wrappers
  import opened Text

  type Path = string

  /** `File.separator`, fixed. */
  const Separator: char := '/'

  datatype Visibility = Public | Protected | PackagePrivate | Private

  /** `isPrivate() || isProtected()`, for a parsed declaration and for reflective modifiers alike. */
  predicate IsRestricted(v: Visibility) {
    v == Private || v == Protected
  }

  /** One `FieldDeclaration`: a visibility and the variables it declares (`private int a, b;`). */
  datatype FieldDeclaration = FieldDeclaration(visibility: Visibility, variables: seq<string>)

  /** A parsed class: its name, its field declarations in order, and the names in its `extends` clause. */
  datatype ClassDeclaration = ClassDeclaration(name: string, fields: seq<FieldDeclaration>, extendedTypes: seq<string>)

  datatype ImportDeclaration = ImportDeclaration(name: string, isAsterisk: bool)

  /** A parsed source file. */
  datatype CompilationUnit = CompilationUnit(packageDeclaration: Option<string>, imports: seq<ImportDeclaration>, classes: seq<ClassDeclaration>)

  /** What `listFiles` shows under a root, in listing order. */
  datatype Entry = SourceFile(name: string, path: Path) | Directory(path: Path, entries: seq<Entry>)

  /** A class as reflection sees it: its declared fields and its superclass (null for `Object`). */
  datatype RuntimeClass = RuntimeClass(declaredFields: map<string, Visibility>, superclass: Option<RuntimeClass>)

  /**
   * The environment of one analysis: the paths that exist, the directory tree found at each path,
   * the files that parse (a path missing from `parsed` makes `StaticJavaParser.parse` throw), and
   * the classes `Class.forName` can load, by name.
   */
  datatype Workspace = Workspace(
    existing: set<Path>,
    folders: map<Path, Entry>,
    parsed: map<Path, CompilationUnit>,
    loadable: map<string, RuntimeClass>)

  /** The exceptions of `needGetter`, and the stack overflow of a cyclic chain (fuel run out). */
  datatype AnalysisError =
    | ClassFileNotFound(className: string)
    | ParseFailure(path: Path)
    | ClassNotInFile(path: Path)
    | HierarchyTooDeep

  // ---------------------------------------------------------------------------------------------
  // Paths and names

  /** `new File(parent, child).getAbsolutePath()`. */
  function JoinPath(parent: Path, child: Path): Path {
    parent + [Separator] + child
  }

  /** `file.getParentFile()`: everything before the last separator; null when there is none. */
  function ParentDirectory(p: Path): Option<Path> {
    var i := LastIndexOf(p, Separator);
    if i >= 0 then Some(p[..i]) else None
  }

  /** `new File(dir, child)`, where a null `dir` leaves `child` alone. */
  function ChildPath(dir: Option<Path>, child: Path): Path {
    match dir
    case Some(d) => JoinPath(d, child)
    case None => child
  }

  /** `convertImportToFilePath`: the root, a separator, the name with dots turned into separators, `.java`. */
  function ConvertImportToFilePath(fullImport: string, projectPath: Path): (r: Path)
    ensures |r| == |projectPath| + 1 + |fullImport| + 5
    ensures r[..|projectPath| + 1] == projectPath + [Separator]
    ensures forall i :: 0 <= i < |fullImport| ==>
      r[|projectPath| + 1 + i] == if fullImport[i] == '.' then Separator else fullImport[i]
    ensures r[|r| - 5..] == ".java"
  {
    var relativePath := ReplaceChar(fullImport, '.', Separator) + ".java";
    JoinPath(projectPath, relativePath)
  }

  /** `convertPackageToFilePath`: the root, the package as directories, then `className.java`. */
  function ConvertPackageToFilePath(packageName: string, className: string, projectPath: Path): Path {
    var packagePath := ReplaceChar(packageName, '.', Separator);
    var relativePath := packagePath + [Separator] + className + ".java";
    JoinPath(projectPath, relativePath)
  }

  /** The same-package path of `C` in package `p` is the import path of `p.C`. */
  lemma PackagePathIsImportPath(packageName: string, className: string, projectPath: Path)
    requires '.' !in className
    ensures ConvertPackageToFilePath(packageName, className, projectPath)
         == ConvertImportToFilePath(packageName + "." + className, projectPath)
  {
    var full := packageName + "." + className;
    var replaced := ReplaceChar(full, '.', Separator);
    var expected := ReplaceChar(packageName, '.', Separator) + [Separator] + className;
    assert |replaced| == |expected|;
    forall i | 0 <= i < |full| ensures replaced[i] == expected[i] {
      if i < |packageName| {
        assert full[i] == packageName[i];
      } else if i > |packageName| {
        assert full[i] == className[i - |packageName| - 1];
        assert className[i - |packageName| - 1] in className;
      }
    }
    assert replaced == expected;
  }

  /** `getClassNameFromImport`: the text after the last dot, or all of it. */
  function GetClassNameFromImport(fullImport: string): string {
    AfterLast(fullImport, '.')
  }

  /** The simple name of `p.C` is `C`. */
  lemma QualifiedImportName(packageName: string, className: string)
    requires '.' !in className
    ensures GetClassNameFromImport(packageName + "." + className) == className
  {
    AfterLastQualified(packageName, '.', className);
  }

  /** `getCurrentPackage`: the package name, or the empty string. */
  function GetCurrentPackage(cu: CompilationUnit): string {
    cu.packageDeclaration.GetOr("")
  }

  /** `cu.getClassByName(name)`: the first top-level class of that name. */
  function GetClassByName(classes: seq<ClassDeclaration>, name: string): (r: Option<ClassDeclaration>)
    ensures r.Some? ==> r.value in classes && r.value.name == name
    ensures r.None? ==> forall c :: c in classes ==> c.name != name
  {
    if |classes| == 0 then None
    else if classes[0].name == name then Some(classes[0])
    else GetClassByName(classes[1..], name)
  }

  /** `getClassByName` answers with the first class of that name, in declaration order. */
  lemma {:induction false} GetClassByNameIsFirst(classes: seq<ClassDeclaration>, name: string)
    ensures GetClassByName(classes, name).Some? ==>
      exists i :: 0 <= i < |classes| && classes[i] == GetClassByName(classes, name).value
        && forall j :: 0 <= j < i ==> classes[j].name != name
    decreases |classes|
  {
    if |classes| > 0 {
      if classes[0].name == name {
        assert classes[0] == GetClassByName(classes, name).value;
      } else {
        var rest := classes[1..];
        GetClassByNameIsFirst(rest, name);
        if GetClassByName(rest, name).Some? {
          var i :| 0 <= i < |rest| && rest[i] == GetClassByName(rest, name).value
            && forall j :: 0 <= j < i ==> rest[j].name != name;
          assert classes[i + 1] == rest[i];
          forall j | 0 <= j < i + 1 ensures classes[j].name != name {
            if j > 0 { assert classes[j] == rest[j - 1]; }
          }
        }
      }
    }
  }

  // ---------------------------------------------------------------------------------------------
  // buildImportMap

  /** An import that `buildImportMap` records under simple name `k`. */
  predicate Binds(imp: ImportDeclaration, k: string) {
    !imp.isAsterisk && GetClassNameFromImport(imp.name) == k
  }

  /** The map `buildImportMap` fills, after the given imports in order. */
  function ImportMap(imports: seq<ImportDeclaration>): map<string, string>
    decreases |imports|
  {
    if |imports| == 0 then map[]
    else
      var m := ImportMap(imports[..|imports| - 1]);
      var last := imports[|imports| - 1];
      if last.isAsterisk then m else m[GetClassNameFromImport(last.name) := last.name]
  }

  /** The position of the last single-type import with simple name `k`, or -1. */
  function LastBinding(imports: seq<ImportDeclaration>, k: string): (r: int)
    ensures -1 <= r < |imports|
    ensures r >= 0 ==> Binds(imports[r], k)
    ensures forall j :: r < j < |imports| ==> !Binds(imports[j], k)
  {
    LastBindingBefore(imports, k, |imports|)
  }

  /** The position of the last single-type import with simple name `k` among the first `n`, or -1. */
  function LastBindingBefore(imports: seq<ImportDeclaration>, k: string, n: nat): (r: int)
    requires n <= |imports|
    ensures -1 <= r < n
    ensures r >= 0 ==> Binds(imports[r], k)
    ensures forall j :: r < j < n ==> !Binds(imports[j], k)
    decreases n
  {
    if n == 0 then -1
    else if Binds(imports[n - 1], k) then n - 1
    else LastBindingBefore(imports, k, n - 1)
  }

  /**
   * A simple name is bound exactly when some single-type import has it (asterisk imports bind
   * nothing), and it is bound to the last such import.
   */
  lemma {:induction false} ImportMapLastWins(imports: seq<ImportDeclaration>, k: string)
    ensures k in ImportMap(imports) <==> LastBinding(imports, k) >= 0
    ensures k in ImportMap(imports) ==> ImportMap(imports)[k] == imports[LastBinding(imports, k)].name
    decreases |imports|
  {
    if |imports| > 0 {
      var n := |imports| - 1;
      var init := imports[..n];
      var last := imports[n];
      ImportMapLastWins(init, k);
      assert ImportMap(imports) == if last.isAsterisk then ImportMap(init) else ImportMap(init)[GetClassNameFromImport(last.name) := last.name];
      if !Binds(last, k) {
        var a, b := LastBinding(imports, k), LastBinding(init, k);
        assert forall j :: 0 <= j < n ==> imports[j] == init[j];
        assert a == b;
        if b >= 0 {
          assert imports[b] == init[b];
        }
      }
    }
  }

  /** One more import: an asterisk import changes nothing, a single-type import (re)binds its simple name. */
  lemma ImportMapStep(imports: seq<ImportDeclaration>, i: nat)
    requires i < |imports|
    ensures ImportMap(imports[..i + 1]) == if imports[i].isAsterisk then ImportMap(imports[..i])
      else ImportMap(imports[..i])[GetClassNameFromImport(imports[i].name) := imports[i].name]
  {
    var done := imports[..i + 1];
    assert done[..i] == imports[..i] && done[i] == imports[i];
  }

  /** `buildImportMap`. */
  method BuildImportMap(cu: CompilationUnit) returns (importMap: map<string, string>)
    ensures importMap == ImportMap(cu.imports)
  {
    importMap := map[];
    var i := 0;
    while i < |cu.imports|
      invariant 0 <= i <= |cu.imports|
      invariant importMap == ImportMap(cu.imports[..i])
    {
      var importDecl := cu.imports[i];
      ImportMapStep(cu.imports, i);
      if !importDecl.isAsterisk {
        var fullImport := importDecl.name;
        var className := GetClassNameFromImport(fullImport);
        importMap := importMap[className := fullImport];
      }
      i := i + 1;
    }
    assert cu.imports[..i] == cu.imports;
  }

  // ---------------------------------------------------------------------------------------------
  // determineSuperClassPath and findSuperClassFile

  /** Case 2 applies: a package is declared and `root/pkg/C.java` exists. */
  predicate SamePackageHit(superClassName: string, currentPackage: string, projectPath: Path, existing: set<Path>) {
    currentPackage != "" && ConvertPackageToFilePath(currentPackage, superClassName, projectPath) in existing
  }

  /** Case 3 applies: `C.java` exists beside the current class and lies under the root. */
  predicate SameDirectoryHit(superClassName: string, currentClassDir: Option<Path>, projectPath: Path, existing: set<Path>) {
    var sameDir := ChildPath(currentClassDir, superClassName + ".java");
    sameDir in existing && StartsWith(sameDir, projectPath)
  }

  /**
   * `determineSuperClassPath` for one root, by priority: an explicit import (whether or not its file
   * exists), an existing same-package file, an existing same-directory file under the root, a dotted
   * name taken literally, else null.
   */
  function DetermineSuperClassPath(superClassName: string, importMap: map<string, string>, currentPackage: string,
                                   currentClassDir: Option<Path>, projectPath: Path, existing: set<Path>): (r: Option<Path>)
    ensures r.None? <==>
      && superClassName !in importMap
      && !SamePackageHit(superClassName, currentPackage, projectPath, existing)
      && !SameDirectoryHit(superClassName, currentClassDir, projectPath, existing)
      && '.' !in superClassName
    ensures r.Some? && r.value !in existing ==>
      (superClassName in importMap || '.' in superClassName)
      && r.value == ConvertImportToFilePath(if superClassName in importMap then importMap[superClassName] else superClassName, projectPath)
  {
    if superClassName in importMap then
      Some(ConvertImportToFilePath(importMap[superClassName], projectPath))
    else if SamePackageHit(superClassName, currentPackage, projectPath, existing) then
      Some(ConvertPackageToFilePath(currentPackage, superClassName, projectPath))
    else if SameDirectoryHit(superClassName, currentClassDir, projectPath, existing) then
      Some(ChildPath(currentClassDir, superClassName + ".java"))
    else if '.' in superClassName then
      Some(ConvertImportToFilePath(superClassName, projectPath))
    else
      None
  }

  /** An import decides the path by name alone: no file-system state can change it or let a later case in. */
  lemma ImportDecidesPath(superClassName: string, importMap: map<string, string>, currentPackage: string,
                          currentClassDir: Option<Path>, projectPath: Path, existing: set<Path>, existing': set<Path>)
    requires superClassName in importMap
    ensures DetermineSuperClassPath(superClassName, importMap, currentPackage, currentClassDir, projectPath, existing)
         == DetermineSuperClassPath(superClassName, importMap, currentPackage, currentClassDir, projectPath, existing')
         == Some(ConvertImportToFilePath(importMap[superClassName], projectPath))
  {
  }

  /**
   * Without an import: a same-package file wins over a same-directory one, which wins over a dotted
   * name, taken literally under the root.
   */
  lemma PathPriorityWithoutImport(superClassName: string, importMap: map<string, string>, currentPackage: string,
                                       currentClassDir: Option<Path>, projectPath: Path, existing: set<Path>)
    requires superClassName !in importMap
    ensures SamePackageHit(superClassName, currentPackage, projectPath, existing) ==>
      DetermineSuperClassPath(superClassName, importMap, currentPackage, currentClassDir, projectPath, existing)
        == Some(ConvertPackageToFilePath(currentPackage, superClassName, projectPath))
    ensures (!SamePackageHit(superClassName, currentPackage, projectPath, existing)
             && SameDirectoryHit(superClassName, currentClassDir, projectPath, existing)) ==>
      DetermineSuperClassPath(superClassName, importMap, currentPackage, currentClassDir, projectPath, existing)
        == Some(ChildPath(currentClassDir, superClassName + ".java"))
    ensures (!SamePackageHit(superClassName, currentPackage, projectPath, existing)
             && !SameDirectoryHit(superClassName, currentClassDir, projectPath, existing)
             && '.' in superClassName) ==>
      DetermineSuperClassPath(superClassName, importMap, currentPackage, currentClassDir, projectPath, existing)
        == Some(ConvertImportToFilePath(superClassName, projectPath))
  {
  }

  /** The loop of `findSuperClassFile` from a given root on: the first determined path that exists. */
  function SuperClassFileFrom(superClassName: string, importMap: map<string, string>, currentPackage: string,
                              currentClassDir: Option<Path>, roots: seq<Path>, existing: set<Path>): Option<Path>
    decreases |roots|
  {
    if |roots| == 0 then None
    else
      var p := DetermineSuperClassPath(superClassName, importMap, currentPackage, currentClassDir, roots[0], existing);
      if p.Some? && p.value in existing then p
      else SuperClassFileFrom(superClassName, importMap, currentPackage, currentClassDir, roots[1..], existing)
  }

  /** `findSuperClassFile`, as a value. */
  function SuperClassFile(ws: Workspace, cu: CompilationUnit, superClassName: string, currentClassDir: Option<Path>,
                          roots: seq<Path>): Option<Path>
  {
    SuperClassFileFrom(superClassName, ImportMap(cu.imports), GetCurrentPackage(cu), currentClassDir, roots, ws.existing)
  }

  /** A root whose determined superclass path exists. */
  predicate RootHit(superClassName: string, importMap: map<string, string>, currentPackage: string,
                    currentClassDir: Option<Path>, root: Path, existing: set<Path>)
  {
    var p := DetermineSuperClassPath(superClassName, importMap, currentPackage, currentClassDir, root, existing);
    p.Some? && p.value in existing
  }

  /** `findSuperClassFile` returns the existing path of the first root that has one, or null when none does. */
  lemma {:induction false} SuperClassFileIsFirstHit(superClassName: string, importMap: map<string, string>, currentPackage: string,
                                                    currentClassDir: Option<Path>, roots: seq<Path>, existing: set<Path>)
    ensures SuperClassFileFrom(superClassName, importMap, currentPackage, currentClassDir, roots, existing).None? <==>
      forall i :: 0 <= i < |roots| ==> !RootHit(superClassName, importMap, currentPackage, currentClassDir, roots[i], existing)
    ensures SuperClassFileFrom(superClassName, importMap, currentPackage, currentClassDir, roots, existing).Some? ==>
      exists i :: 0 <= i < |roots|
        && RootHit(superClassName, importMap, currentPackage, currentClassDir, roots[i], existing)
        && SuperClassFileFrom(superClassName, importMap, currentPackage, currentClassDir, roots, existing)
           == DetermineSuperClassPath(superClassName, importMap, currentPackage, currentClassDir, roots[i], existing)
        && forall j :: 0 <= j < i ==> !RootHit(superClassName, importMap, currentPackage, currentClassDir, roots[j], existing)
    decreases |roots|
  {
    if |roots| > 0 {
      var rest := roots[1..];
      SuperClassFileIsFirstHit(superClassName, importMap, currentPackage, currentClassDir, rest, existing);
      assert forall i :: 0 <= i < |rest| ==> rest[i] == roots[i + 1];
      if !RootHit(superClassName, importMap, currentPackage, currentClassDir, roots[0], existing) {
        if SuperClassFileFrom(superClassName, importMap, currentPackage, currentClassDir, rest, existing).Some? {
          var i :| 0 <= i < |rest|
            && RootHit(superClassName, importMap, currentPackage, currentClassDir, rest[i], existing)
            && SuperClassFileFrom(superClassName, importMap, currentPackage, currentClassDir, rest, existing)
               == DetermineSuperClassPath(superClassName, importMap, currentPackage, currentClassDir, rest[i], existing)
            && forall j :: 0 <= j < i ==> !RootHit(superClassName, importMap, currentPackage, currentClassDir, rest[j], existing);
          assert RootHit(superClassName, importMap, currentPackage, currentClassDir, roots[i + 1], existing);
        } else {
          forall i | 0 <= i < |roots|
            ensures !RootHit(superClassName, importMap, currentPackage, currentClassDir, roots[i], existing)
          {
            if i > 0 { assert roots[i] == rest[i - 1]; }
          }
        }
      }
    }
  }

  /** An imported superclass is only ever looked for at its import path: the file found is that path under some root. */
  lemma {:induction false} ImportedSuperClassFile(superClassName: string, importMap: map<string, string>, currentPackage: string,
                                                  currentClassDir: Option<Path>, roots: seq<Path>, existing: set<Path>)
    requires superClassName in importMap
    ensures SuperClassFileFrom(superClassName, importMap, currentPackage, currentClassDir, roots, existing).Some? ==>
      exists i :: 0 <= i < |roots|
        && SuperClassFileFrom(superClassName, importMap, currentPackage, currentClassDir, roots, existing)
           == Some(ConvertImportToFilePath(importMap[superClassName], roots[i]))
  {
    SuperClassFileIsFirstHit(superClassName, importMap, currentPackage, currentClassDir, roots, existing);
  }

  /** `findSuperClassFile`: tries each root in order, returns the first determined path that exists. */
  method FindSuperClassFile(ws: Workspace, cu: CompilationUnit, superClassName: string, currentClassDir: Option<Path>,
                            projectPaths: seq<Path>) returns (r: Option<Path>)
    ensures r == SuperClassFile(ws, cu, superClassName, currentClassDir, projectPaths)
    ensures r.Some? ==> r.value in ws.existing
  {
    var importMap := BuildImportMap(cu);
    var currentPackage := GetCurrentPackage(cu);
    var i := 0;
    while i < |projectPaths|
      invariant 0 <= i <= |projectPaths|
      invariant SuperClassFile(ws, cu, superClassName, currentClassDir, projectPaths)
             == SuperClassFileFrom(superClassName, importMap, currentPackage, currentClassDir, projectPaths[i..], ws.existing)
    {
      var projectPath := projectPaths[i];
      var superClassPath := DetermineSuperClassPath(superClassName, importMap, currentPackage, currentClassDir, projectPath, ws.existing);
      assert projectPaths[i..][1..] == projectPaths[i + 1..];
      if superClassPath.Some? {
        if superClassPath.value in ws.existing {
          return superClassPath;
        }
      }
      i := i + 1;
    }
    return None;
  }

  // ---------------------------------------------------------------------------------------------
  // Reflection fallback

  /** The class followed by its superclasses, up to the root of the hierarchy. */
  function Ancestors(c: RuntimeClass): (r: seq<RuntimeClass>)
    ensures |r| >= 1 && r[0] == c
    decreases c
  {
    match c.superclass
    case None => [c]
    case Some(s) => [c] + Ancestors(s)
  }

  /** The declaration `getDeclaredField` finds first on the way up from `c`. */
  function FieldInChain(c: RuntimeClass, fieldName: string): Option<Visibility>
    decreases c
  {
    if fieldName in c.declaredFields then Some(c.declaredFields[fieldName])
    else match c.superclass
      case None => None
      case Some(s) => FieldInChain(s, fieldName)
  }

  /** No field is found exactly when no ancestor declares it. */
  lemma {:induction false} FieldInChainAbsent(c: RuntimeClass, fieldName: string)
    ensures FieldInChain(c, fieldName).None? <==>
      forall r :: r in Ancestors(c) ==> fieldName !in r.declaredFields
    decreases c
  {
    var a := Ancestors(c);
    if fieldName in c.declaredFields {
      assert a[0] == c;
    } else if c.superclass.None? {
      assert a == [c];
    } else {
      var s := c.superclass.value;
      FieldInChainAbsent(s, fieldName);
      var rest := Ancestors(s);
      assert a == [c] + rest;
      assert forall r :: r in a <==> r == c || r in rest;
    }
  }

  /** A field found is the declaration of the nearest ancestor that declares it. */
  lemma {:induction false} FieldInChainIsNearest(c: RuntimeClass, fieldName: string)
    ensures FieldInChain(c, fieldName).Some? ==>
      exists i :: 0 <= i < |Ancestors(c)| && fieldName in Ancestors(c)[i].declaredFields
        && FieldInChain(c, fieldName).value == Ancestors(c)[i].declaredFields[fieldName]
        && forall j :: 0 <= j < i ==> fieldName !in Ancestors(c)[j].declaredFields
    decreases c
  {
    var a := Ancestors(c);
    if fieldName in c.declaredFields {
      assert a[0] == c;
    } else if c.superclass.Some? {
      var s := c.superclass.value;
      FieldInChainIsNearest(s, fieldName);
      var rest := Ancestors(s);
      assert a == [c] + rest;
      if FieldInChain(s, fieldName).Some? {
        var i :| 0 <= i < |rest| && fieldName in rest[i].declaredFields
          && FieldInChain(s, fieldName).value == rest[i].declaredFields[fieldName]
          && forall j :: 0 <= j < i ==> fieldName !in rest[j].declaredFields;
        assert a[i + 1] == rest[i];
        forall j | 0 <= j < i + 1 ensures fieldName !in a[j].declaredFields {
          if j > 0 {
            assert a[j] == rest[j - 1];
          }
        }
      }
    }
  }

  /** `findFieldReflectively`: walks up the superclass chain until a class declares the field. */
  method FindFieldReflectively(clazz: RuntimeClass, fieldName: string) returns (r: Option<Visibility>)
    ensures r == FieldInChain(clazz, fieldName)
  {
    var currentClass: Option<RuntimeClass> := Some(clazz);
    while currentClass.Some?
      invariant currentClass.None? ==> FieldInChain(clazz, fieldName).None?
      invariant currentClass.Some? ==> FieldInChain(currentClass.value, fieldName) == FieldInChain(clazz, fieldName)
      decreases currentClass
    {
      if fieldName in currentClass.value.declaredFields {
        return Some(currentClass.value.declaredFields[fieldName]);
      }
      currentClass := currentClass.value.superclass;
    }
    return None;
  }

  /** `handleReflectionFallback`, as a value. */
  predicate ReflectionFallback(ws: Workspace, superClassName: string, attributeName: string) {
    superClassName in ws.loadable
    && match FieldInChain(ws.loadable[superClassName], attributeName)
       case Some(v) => IsRestricted(v)
       case None => false
  }

  /**
   * The fallback answers true exactly when the class loads and the nearest ancestor declaring the
   * field declares it private or protected; an unknown class or a field absent from the whole chain gives false.
   */
  lemma ReflectionFallbackMeaning(ws: Workspace, superClassName: string, attributeName: string)
    ensures ReflectionFallback(ws, superClassName, attributeName) <==>
      && superClassName in ws.loadable
      && exists i :: 0 <= i < |Ancestors(ws.loadable[superClassName])|
           && attributeName in Ancestors(ws.loadable[superClassName])[i].declaredFields
           && IsRestricted(Ancestors(ws.loadable[superClassName])[i].declaredFields[attributeName])
           && forall j :: 0 <= j < i ==> attributeName !in Ancestors(ws.loadable[superClassName])[j].declaredFields
  {
    if superClassName in ws.loadable {
      var c := ws.loadable[superClassName];
      var a := Ancestors(c);
      FieldInChainAbsent(c, attributeName);
      FieldInChainIsNearest(c, attributeName);
      if exists i :: 0 <= i < |a| && attributeName in a[i].declaredFields && IsRestricted(a[i].declaredFields[attributeName])
           && forall j :: 0 <= j < i ==> attributeName !in a[j].declaredFields {
        var i :| 0 <= i < |a| && attributeName in a[i].declaredFields && IsRestricted(a[i].declaredFields[attributeName])
           && forall j :: 0 <= j < i ==> attributeName !in a[j].declaredFields;
        var k :| 0 <= k < |a| && attributeName in a[k].declaredFields
          && FieldInChain(c, attributeName).value == a[k].declaredFields[attributeName]
          && forall j :: 0 <= j < k ==> attributeName !in a[j].declaredFields;
        assert i == k;
      }
    }
  }

  /** `handleReflectionFallback`: `ClassNotFoundException` and a missing field both give false. */
  method HandleReflectionFallback(ws: Workspace, superClassName: string, attributeName: string) returns (b: bool)
    ensures b == ReflectionFallback(ws, superClassName, attributeName)
  {
    if superClassName !in ws.loadable {
      return false;
    }
    var superClass := ws.loadable[superClassName];
    var field := FindFieldReflectively(superClass, attributeName);
    if field.Some? {
      return IsRestricted(field.value);
    }
    return false;
  }

  // ---------------------------------------------------------------------------------------------
  // findJavaFileForClass

  /** A file named `C.java` that parses and declares class `C`. */
  predicate IsClassFile(parsed: map<Path, CompilationUnit>, className: string, e: Entry) {
    && e.SourceFile?
    && e.name == className + ".java"
    && e.path in parsed
    && GetClassByName(parsed[e.path].classes, className).Some?
  }

  /** The files under an entry in depth-first listing order. */
  function FilesOf(e: Entry): seq<Entry>
    decreases e, 1
  {
    match e
    case SourceFile(_, _) => [e]
    case Directory(_, entries) => FilesAll(entries)
  }

  function FilesAll(entries: seq<Entry>): seq<Entry>
    decreases entries, 0
  {
    if |entries| == 0 then [] else FilesOf(entries[0]) + FilesAll(entries[1..])
  }

  /** The first class file of a sequence of files. */
  function FirstClassFile(parsed: map<Path, CompilationUnit>, className: string, files: seq<Entry>): (r: Option<Path>)
    ensures r.Some? ==>
      exists i :: 0 <= i < |files| && IsClassFile(parsed, className, files[i]) && files[i].path == r.value
        && forall j :: 0 <= j < i ==> !IsClassFile(parsed, className, files[j])
    ensures r.None? ==> forall i :: 0 <= i < |files| ==> !IsClassFile(parsed, className, files[i])
  {
    if |files| == 0 then None
    else if IsClassFile(parsed, className, files[0]) then Some(files[0].path)
    else
      var r := FirstClassFile(parsed, className, files[1..]);
      assert forall i :: 1 <= i < |files| ==> files[i] == files[1..][i - 1];
      r
  }

  lemma {:induction false} FirstClassFileAppend(parsed: map<Path, CompilationUnit>, className: string, a: seq<Entry>, b: seq<Entry>)
    ensures FirstClassFile(parsed, className, a + b) ==
      if FirstClassFile(parsed, className, a).Some? then FirstClassFile(parsed, className, a) else FirstClassFile(parsed, className, b)
  {
    if |a| > 0 {
      assert (a + b)[0] == a[0];
      assert (a + b)[1..] == a[1..] + b;
      FirstClassFileAppend(parsed, className, a[1..], b);
    } else {
      assert a + b == b;
    }
  }

  /** What the single-folder `findJavaFileForClass` finds: nothing unless the path is a directory. */
  function FolderClassFile(parsed: map<Path, CompilationUnit>, className: string, folder: Entry): Option<Path> {
    if folder.Directory? then FirstClassFile(parsed, className, FilesAll(folder.entries)) else None
  }

  /** The single-folder `findJavaFileForClass`: depth-first, in listing order, skipping files that do not parse. */
  method FindJavaFileInFolder(ws: Workspace, className: string, folder: Entry) returns (r: Option<Path>)
    ensures r == FolderClassFile(ws.parsed, className, folder)
    decreases folder
  {
    if !folder.Directory? {
      return None;
    }
    var files := folder.entries;
    var i := 0;
    while i < |files|
      invariant 0 <= i <= |files|
      invariant FolderClassFile(ws.parsed, className, folder) == FirstClassFile(ws.parsed, className, FilesAll(files[i..]))
    {
      var file := files[i];
      assert files[i..][1..] == files[i + 1..];
      FirstClassFileAppend(ws.parsed, className, FilesOf(file), FilesAll(files[i + 1..]));
      if file.Directory? {
        var result := FindJavaFileInFolder(ws, className, file);
        if result.Some? {
          return result;
        }
      } else if file.name == className + ".java" {
        if file.path in ws.parsed && GetClassByName(ws.parsed[file.path].classes, className).Some? {
          return Some(file.path);
        }
      }
      i := i + 1;
    }
    return None;
  }

  /** What one root yields: a path that is not a listed directory yields nothing. */
  function RootClassFile(ws: Workspace, className: string, root: Path): Option<Path> {
    if root in ws.folders then FolderClassFile(ws.parsed, className, ws.folders[root]) else None
  }

  /** The multi-root `findJavaFileForClass`: the class file of the first root that has one. */
  function JavaFileForClass(ws: Workspace, className: string, roots: seq<Path>): Option<Path>
    decreases |roots|
  {
    if |roots| == 0 then None
    else if RootClassFile(ws, className, roots[0]).Some? then RootClassFile(ws, className, roots[0])
    else JavaFileForClass(ws, className, roots[1..])
  }

  /** Root order decides: the file comes from the earliest root that has one, never a later root. */
  lemma {:induction false} EarliestRootWins(ws: Workspace, className: string, roots: seq<Path>)
    ensures JavaFileForClass(ws, className, roots).None? <==>
      forall i :: 0 <= i < |roots| ==> RootClassFile(ws, className, roots[i]).None?
    ensures JavaFileForClass(ws, className, roots).Some? ==>
      exists i :: 0 <= i < |roots| && JavaFileForClass(ws, className, roots) == RootClassFile(ws, className, roots[i])
        && forall j :: 0 <= j < i ==> RootClassFile(ws, className, roots[j]).None?
    decreases |roots|
  {
    if |roots| > 0 {
      var rest := roots[1..];
      EarliestRootWins(ws, className, rest);
      if RootClassFile(ws, className, roots[0]).None? {
        assert JavaFileForClass(ws, className, roots) == JavaFileForClass(ws, className, rest);
        if JavaFileForClass(ws, className, rest).Some? {
          var i :| 0 <= i < |rest| && JavaFileForClass(ws, className, rest) == RootClassFile(ws, className, rest[i])
            && forall j :: 0 <= j < i ==> RootClassFile(ws, className, rest[j]).None?;
          assert roots[i + 1] == rest[i];
          assert forall j :: 1 <= j < i + 1 ==> roots[j] == rest[j - 1];
        } else {
          forall i | 0 <= i < |roots| ensures RootClassFile(ws, className, roots[i]).None? {
            if i > 0 { assert roots[i] == rest[i - 1]; }
          }
        }
      } else {
        assert JavaFileForClass(ws, className, roots) == RootClassFile(ws, className, roots[0]);
      }
    }
  }

  /** The multi-root `findJavaFileForClass`. */
  method FindJavaFileForClass(ws: Workspace, className: string, projectPaths: seq<Path>) returns (r: Option<Path>)
    ensures r == JavaFileForClass(ws, className, projectPaths)
  {
    var i := 0;
    while i < |projectPaths|
      invariant 0 <= i <= |projectPaths|
      invariant JavaFileForClass(ws, className, projectPaths) == JavaFileForClass(ws, className, projectPaths[i..])
    {
      assert projectPaths[i..][1..] == projectPaths[i + 1..];
      var result: Option<Path> := None;
      if projectPaths[i] in ws.folders {
        result := FindJavaFileInFolder(ws, className, ws.folders[projectPaths[i]]);
      }
      if result.Some? {
        return result;
      }
      i := i + 1;
    }
    return None;
  }

  // ---------------------------------------------------------------------------------------------
  // analyzeClassRecursive and needGetter

  /** Declaration `i` is the first, in order, to declare `attributeName`. */
  predicate FirstDeclaration(fields: seq<FieldDeclaration>, attributeName: string, i: int) {
    0 <= i < |fields| && attributeName in fields[i].variables
    && forall j :: 0 <= j < i ==> attributeName !in fields[j].variables
  }

  /** There is at most one first declaration. */
  lemma FirstDeclarationUnique(fields: seq<FieldDeclaration>, attributeName: string, i: int, k: int)
    requires FirstDeclaration(fields, attributeName, i) && FirstDeclaration(fields, attributeName, k)
    ensures i == k
  {
  }

  /** The visibility of the first field declaration, in order, that declares `attributeName`. */
  function DeclaredVisibility(fields: seq<FieldDeclaration>, attributeName: string): (r: Option<Visibility>)
    ensures r.None? <==> forall i :: 0 <= i < |fields| ==> attributeName !in fields[i].variables
    ensures r.Some? ==> exists i :: FirstDeclaration(fields, attributeName, i) && r.value == fields[i].visibility
  {
    if |fields| == 0 then None
    else if attributeName in fields[0].variables then Some(fields[0].visibility)
    else
      var r := DeclaredVisibility(fields[1..], attributeName);
      assert forall i :: 1 <= i < |fields| ==> fields[i] == fields[1..][i - 1];
      r
  }

  /** `analyzeClassRecursive` once the class is parsed: the field test, then the first extended type. */
  function AnalyzeClass(ws: Workspace, file: Path, cu: CompilationUnit, clazz: ClassDeclaration, attributeName: string,
                        projectPaths: seq<Path>, isInSuperclass: bool, fuel: nat): Result<bool, AnalysisError>
    decreases fuel, 1
  {
    match DeclaredVisibility(clazz.fields, attributeName)
    case Some(v) => Ok(isInSuperclass && IsRestricted(v))
    case None =>
      if |clazz.extendedTypes| == 0 then Ok(false)
      else
        var superClassName := clazz.extendedTypes[0];
        match SuperClassFile(ws, cu, superClassName, ParentDirectory(file), projectPaths)
        case Some(superClassFile) => Analyze(ws, superClassFile, superClassName, attributeName, projectPaths, true, fuel)
        case None => Ok(ReflectionFallback(ws, superClassName, attributeName))
  }

  /** `analyzeClassRecursive`, with `fuel` bounding the depth of the recursion. */
  function Analyze(ws: Workspace, file: Path, className: string, attributeName: string, projectPaths: seq<Path>,
                   isInSuperclass: bool, fuel: nat): Result<bool, AnalysisError>
    decreases fuel, 0
  {
    if fuel == 0 then Err(HierarchyTooDeep)
    else if file !in ws.parsed then Err(ParseFailure(file))
    else
      var cu := ws.parsed[file];
      match GetClassByName(cu.classes, className)
      case None => Err(ClassNotInFile(file))
      case Some(clazz) => AnalyzeClass(ws, file, cu, clazz, attributeName, projectPaths, isInSuperclass, fuel - 1)
  }

  /** A field declared in the class analysed first never needs a getter, whatever its visibility. */
  lemma DeclaredHereNeedsNoGetter(ws: Workspace, file: Path, cu: CompilationUnit, clazz: ClassDeclaration, attributeName: string,
                                  projectPaths: seq<Path>, fuel: nat)
    requires exists i :: 0 <= i < |clazz.fields| && attributeName in clazz.fields[i].variables
    ensures AnalyzeClass(ws, file, cu, clazz, attributeName, projectPaths, false, fuel) == Ok(false)
  {
  }

  /** A field first found in a superclass needs a getter exactly when it is private or protected. */
  lemma InheritedNeedsGetterIffRestricted(ws: Workspace, file: Path, cu: CompilationUnit, clazz: ClassDeclaration,
                                          attributeName: string, projectPaths: seq<Path>, fuel: nat)
    requires exists i :: 0 <= i < |clazz.fields| && attributeName in clazz.fields[i].variables
    ensures AnalyzeClass(ws, file, cu, clazz, attributeName, projectPaths, true, fuel) == Ok(true) <==>
      exists i :: FirstDeclaration(clazz.fields, attributeName, i) && IsRestricted(clazz.fields[i].visibility)
  {
    var v := DeclaredVisibility(clazz.fields, attributeName).value;
    assert AnalyzeClass(ws, file, cu, clazz, attributeName, projectPaths, true, fuel) == Ok(IsRestricted(v));
    var k :| FirstDeclaration(clazz.fields, attributeName, k) && v == clazz.fields[k].visibility;
    if exists i :: FirstDeclaration(clazz.fields, attributeName, i) && IsRestricted(clazz.fields[i].visibility) {
      var i :| FirstDeclaration(clazz.fields, attributeName, i) && IsRestricted(clazz.fields[i].visibility);
      FirstDeclarationUnique(clazz.fields, attributeName, i, k);
    }
  }

  /** With no matching field, only the first extended type is followed; with none at all the answer is false. */
  lemma OnlyFirstExtendedType(ws: Workspace, file: Path, cu: CompilationUnit, clazz: ClassDeclaration, attributeName: string,
                              projectPaths: seq<Path>, isInSuperclass: bool, fuel: nat, others: seq<string>)
    requires DeclaredVisibility(clazz.fields, attributeName).None?
    ensures |clazz.extendedTypes| == 0 ==> AnalyzeClass(ws, file, cu, clazz, attributeName, projectPaths, isInSuperclass, fuel) == Ok(false)
    ensures |clazz.extendedTypes| > 0 ==>
      AnalyzeClass(ws, file, cu, clazz, attributeName, projectPaths, isInSuperclass, fuel)
        == AnalyzeClass(ws, file, cu, clazz.(extendedTypes := [clazz.extendedTypes[0]] + others), attributeName, projectPaths, isInSuperclass, fuel)
  {
  }

  /**
   * The superclass step always analyses the superclass as a superclass: a field the class does not
   * declare, first declared by a superclass that has a source file, gives the restricted test of that
   * declaration, whether the class itself is the originating class or a superclass.
   */
  lemma InheritedThroughSourceSuperclass(ws: Workspace, file: Path, className: string, attributeName: string,
                                         projectPaths: seq<Path>, isInSuperclass: bool, fuel: nat, clazz: ClassDeclaration,
                                         superFile: Path, superClass: ClassDeclaration, v: Visibility)
    requires file in ws.parsed && GetClassByName(ws.parsed[file].classes, className) == Some(clazz)
    requires DeclaredVisibility(clazz.fields, attributeName).None? && |clazz.extendedTypes| > 0
    requires SuperClassFile(ws, ws.parsed[file], clazz.extendedTypes[0], ParentDirectory(file), projectPaths) == Some(superFile)
    requires superFile in ws.parsed && GetClassByName(ws.parsed[superFile].classes, clazz.extendedTypes[0]) == Some(superClass)
    requires DeclaredVisibility(superClass.fields, attributeName) == Some(v)
    requires fuel >= 2
    ensures Analyze(ws, file, className, attributeName, projectPaths, isInSuperclass, fuel) == Ok(IsRestricted(v))
  {
    var cu := ws.parsed[file];
    assert Analyze(ws, file, className, attributeName, projectPaths, isInSuperclass, fuel)
        == AnalyzeClass(ws, file, cu, clazz, attributeName, projectPaths, isInSuperclass, fuel - 1);
    assert AnalyzeClass(ws, file, cu, clazz, attributeName, projectPaths, isInSuperclass, fuel - 1)
        == Analyze(ws, superFile, clazz.extendedTypes[0], attributeName, projectPaths, true, fuel - 1);
    var superCu := ws.parsed[superFile];
    assert Analyze(ws, superFile, clazz.extendedTypes[0], attributeName, projectPaths, true, fuel - 1)
        == AnalyzeClass(ws, superFile, superCu, superClass, attributeName, projectPaths, true, fuel - 2);
    assert AnalyzeClass(ws, superFile, superCu, superClass, attributeName, projectPaths, true, fuel - 2) == Ok(IsRestricted(v));
  }

  /** A class that does not declare the field answers the same whether it is analysed as the originating class or as a superclass. */
  lemma FlagIrrelevantWithoutDeclaration(ws: Workspace, file: Path, cu: CompilationUnit, clazz: ClassDeclaration,
                                         attributeName: string, projectPaths: seq<Path>, fuel: nat)
    requires DeclaredVisibility(clazz.fields, attributeName).None?
    ensures AnalyzeClass(ws, file, cu, clazz, attributeName, projectPaths, false, fuel)
         == AnalyzeClass(ws, file, cu, clazz, attributeName, projectPaths, true, fuel)
  {
  }

  /** Fuel only bounds the depth: an answer reached with some fuel is the answer with any more fuel. */
  lemma {:induction false} AnalyzeFuelMonotone(ws: Workspace, file: Path, className: string, attributeName: string,
                                               projectPaths: seq<Path>, isInSuperclass: bool, fuel: nat, more: nat)
    ensures Analyze(ws, file, className, attributeName, projectPaths, isInSuperclass, fuel) != Err(HierarchyTooDeep) ==>
      Analyze(ws, file, className, attributeName, projectPaths, isInSuperclass, fuel + more)
         == Analyze(ws, file, className, attributeName, projectPaths, isInSuperclass, fuel)
    decreases fuel, 0
  {
    if fuel > 0 && file in ws.parsed {
      var c := GetClassByName(ws.parsed[file].classes, className);
      if c.Some? {
        AnalyzeClassFuelMonotone(ws, file, ws.parsed[file], c.value, attributeName, projectPaths, isInSuperclass, fuel - 1, more);
      }
    }
  }

  /** The same for the analysis of a class already found. */
  lemma {:induction false} AnalyzeClassFuelMonotone(ws: Workspace, file: Path, cu: CompilationUnit, clazz: ClassDeclaration,
                                                    attributeName: string, projectPaths: seq<Path>, isInSuperclass: bool,
                                                    fuel: nat, more: nat)
    ensures AnalyzeClass(ws, file, cu, clazz, attributeName, projectPaths, isInSuperclass, fuel) != Err(HierarchyTooDeep) ==>
      AnalyzeClass(ws, file, cu, clazz, attributeName, projectPaths, isInSuperclass, fuel + more)
         == AnalyzeClass(ws, file, cu, clazz, attributeName, projectPaths, isInSuperclass, fuel)
    decreases fuel, 1
  {
    if DeclaredVisibility(clazz.fields, attributeName).None? && |clazz.extendedTypes| > 0 {
      var superClassName := clazz.extendedTypes[0];
      var sf := SuperClassFile(ws, cu, superClassName, ParentDirectory(file), projectPaths);
      if sf.Some? {
        AnalyzeFuelMonotone(ws, sf.value, superClassName, attributeName, projectPaths, true, fuel, more);
      }
    }
  }

  /** The analysis raises only parse, lookup and depth failures: never the not-found error of `needGetter`. */
  lemma {:induction false} AnalyzeNeverClassFileNotFound(ws: Workspace, file: Path, className: string, attributeName: string,
                                                         projectPaths: seq<Path>, isInSuperclass: bool, fuel: nat)
    ensures !(Analyze(ws, file, className, attributeName, projectPaths, isInSuperclass, fuel).Err?
              && Analyze(ws, file, className, attributeName, projectPaths, isInSuperclass, fuel).error.ClassFileNotFound?)
    decreases fuel
  {
    if fuel > 0 && file in ws.parsed {
      var cu := ws.parsed[file];
      var c := GetClassByName(cu.classes, className);
      if c.Some? {
        var clazz := c.value;
        var r := AnalyzeClass(ws, file, cu, clazz, attributeName, projectPaths, isInSuperclass, fuel - 1);
        assert Analyze(ws, file, className, attributeName, projectPaths, isInSuperclass, fuel) == r;
        if DeclaredVisibility(clazz.fields, attributeName).None? && |clazz.extendedTypes| > 0 {
          var superClassName := clazz.extendedTypes[0];
          var sf := SuperClassFile(ws, cu, superClassName, ParentDirectory(file), projectPaths);
          if sf.Some? {
            assert r == Analyze(ws, sf.value, superClassName, attributeName, projectPaths, true, fuel - 1);
            AnalyzeNeverClassFileNotFound(ws, sf.value, superClassName, attributeName, projectPaths, true, fuel - 1);
          } else {
            assert r.Ok?;
          }
        } else {
          assert r.Ok?;
        }
      }
    }
  }

  /** The nested field/variable loops of `analyzeClassRecursive`: the visibility of the first declaration of `attributeName`. */
  method ScanFields(fields: seq<FieldDeclaration>, attributeName: string) returns (d: Option<Visibility>)
    ensures d == DeclaredVisibility(fields, attributeName)
  {
    var i := 0;
    while i < |fields|
      invariant 0 <= i <= |fields|
      invariant forall k :: 0 <= k < i ==> attributeName !in fields[k].variables
    {
      var field := fields[i];
      var j := 0;
      while j < |field.variables|
        invariant 0 <= j <= |field.variables|
        invariant forall m :: 0 <= m < j ==> field.variables[m] != attributeName
      {
        if field.variables[j] == attributeName {
          assert FirstDeclaration(fields, attributeName, i);
          ghost var e :| FirstDeclaration(fields, attributeName, e)
            && DeclaredVisibility(fields, attributeName).value == fields[e].visibility;
          FirstDeclarationUnique(fields, attributeName, i, e);
          return Some(field.visibility);
        }
        j := j + 1;
      }
      i := i + 1;
    }
    return None;
  }

  /** `analyzeClassRecursive`: the nested field/variable loops with early return, then the superclass step. */
  method AnalyzeClassRecursive(ws: Workspace, file: Path, className: string, attributeName: string, projectPaths: seq<Path>,
                               isInSuperclass: bool, fuel: nat) returns (r: Result<bool, AnalysisError>)
    ensures r == Analyze(ws, file, className, attributeName, projectPaths, isInSuperclass, fuel)
    decreases fuel
  {
    if fuel == 0 {
      return Err(HierarchyTooDeep);
    }
    if file !in ws.parsed {
      return Err(ParseFailure(file));
    }
    var cu := ws.parsed[file];
    var clazzOpt := GetClassByName(cu.classes, className);
    if clazzOpt.None? {
      return Err(ClassNotInFile(file));
    }
    var clazz := clazzOpt.value;
    ghost var spec := AnalyzeClass(ws, file, cu, clazz, attributeName, projectPaths, isInSuperclass, fuel - 1);
    assert Analyze(ws, file, className, attributeName, projectPaths, isInSuperclass, fuel) == spec;

    var declared := ScanFields(clazz.fields, attributeName);
    if declared.Some? {
      if !isInSuperclass {
        return Ok(false);
      } else {
        return Ok(IsRestricted(declared.value));
      }
    }

    if |clazz.extendedTypes| > 0 {
      var superClassName := clazz.extendedTypes[0];
      var superClassFile := FindSuperClassFile(ws, cu, superClassName, ParentDirectory(file), projectPaths);
      if superClassFile.Some? {
        assert spec == Analyze(ws, superClassFile.value, superClassName, attributeName, projectPaths, true, fuel - 1);
        r := AnalyzeClassRecursive(ws, superClassFile.value, superClassName, attributeName, projectPaths, true, fuel - 1);
        return;
      } else {
        var b := HandleReflectionFallback(ws, superClassName, attributeName);
        assert spec == Ok(b);
        return Ok(b);
      }
    }
    return Ok(false);
  }

  /** `needGetter`: find the class file, then analyse it as the originating class. */
  function NeedGetterOf(ws: Workspace, className: string, attributeName: string, projectPaths: seq<Path>, fuel: nat): Result<bool, AnalysisError> {
    match JavaFileForClass(ws, className, projectPaths)
    case None => Err(ClassFileNotFound(className))
    case Some(classFile) => Analyze(ws, classFile, className, attributeName, projectPaths, false, fuel)
  }

  /** `needGetter`; it throws "Class file not found" exactly when no root holds the class. */
  method NeedGetter(ws: Workspace, className: string, attributeName: string, projectPaths: seq<Path>, fuel: nat)
    returns (r: Result<bool, AnalysisError>)
    ensures r == NeedGetterOf(ws, className, attributeName, projectPaths, fuel)
    ensures (r.Err? && r.error == ClassFileNotFound(className)) <==> JavaFileForClass(ws, className, projectPaths).None?
  {
    var classFile := FindJavaFileForClass(ws, className, projectPaths);
    if classFile.None? {
      return Err(ClassFileNotFound(className));
    }
    r := AnalyzeClassRecursive(ws, classFile.value, className, attributeName, projectPaths, false, fuel);
    AnalyzeNeverClassFileNotFound(ws, classFile.value, className, attributeName, projectPaths, false, fuel);
  }

  /**
   * A domain class that does not declare the field, whose superclass has a source file that declares
   * it: `needGetter` answers true exactly when that declaration is private or protected.
   */
  lemma NeedGetterThroughSourceSuperclass(ws: Workspace, className: string, attributeName: string, projectPaths: seq<Path>,
                                          fuel: nat, file: Path, clazz: ClassDeclaration, superFile: Path,
                                          superClass: ClassDeclaration, v: Visibility)
    requires JavaFileForClass(ws, className, projectPaths) == Some(file)
    requires file in ws.parsed && GetClassByName(ws.parsed[file].classes, className) == Some(clazz)
    requires DeclaredVisibility(clazz.fields, attributeName).None? && |clazz.extendedTypes| > 0
    requires SuperClassFile(ws, ws.parsed[file], clazz.extendedTypes[0], ParentDirectory(file), projectPaths) == Some(superFile)
    requires superFile in ws.parsed && GetClassByName(ws.parsed[superFile].classes, clazz.extendedTypes[0]) == Some(superClass)
    requires DeclaredVisibility(superClass.fields, attributeName) == Some(v)
    requires fuel >= 2
    ensures NeedGetterOf(ws, className, attributeName, projectPaths, fuel) == Ok(IsRestricted(v))
  {
    InheritedThroughSourceSuperclass(ws, file, className, attributeName, projectPaths, false, fuel, clazz, superFile, superClass, v);
  }

  /** The single-root `needGetter`: the multi-root query over one root. */
  method NeedGetterSinglePath(ws: Workspace, className: string, attributeName: string, singlePath: Path, fuel: nat)
    returns (r: Result<bool, AnalysisError>)
    ensures r == NeedGetterOf(ws, className, attributeName, [singlePath], fuel)
    ensures (r.Err? && r.error == ClassFileNotFound(className)) <==> RootClassFile(ws, className, singlePath).None?
  {
    var paths := [singlePath];
    assert paths[1..] == [];
    r := NeedGetter(ws, className, attributeName, paths, fuel);
  }

  /**
   * A class that does not declare the field and whose superclass resolves back to its own file is
   * analysed again and again: no amount of fuel gives an answer (the source overflows its stack).
   */
  lemma {:induction false} SelfExtendingClassNeverAnswers(ws: Workspace, file: Path, className: string, attributeName: string,
                                                          projectPaths: seq<Path>, isInSuperclass: bool, fuel: nat)
    requires file in ws.parsed
    requires GetClassByName(ws.parsed[file].classes, className).Some?
    requires DeclaredVisibility(GetClassByName(ws.parsed[file].classes, className).value.fields, attributeName).None?
    requires |GetClassByName(ws.parsed[file].classes, className).value.extendedTypes| > 0
    requires GetClassByName(ws.parsed[file].classes, className).value.extendedTypes[0] == className
    requires SuperClassFile(ws, ws.parsed[file], className, ParentDirectory(file), projectPaths) == Some(file)
    ensures Analyze(ws, file, className, attributeName, projectPaths, isInSuperclass, fuel) == Err(HierarchyTooDeep)
    decreases fuel
  {
    if fuel > 0 {
      SelfExtendingClassNeverAnswers(ws, file, className, attributeName, projectPaths, true, fuel - 1);
    }
  }
}
