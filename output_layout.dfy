/** Where `classCodeEnd` puts the generated classes and the runtime classes, and what it
    runs or packages afterwards. File-system effects are left to the caller; this module
    computes the names. */
module OutputLayout {
  import opened JavaLang
  import opened JavaStrings

  const APP_DIRECTORY_SUFFIX := "_app"
  const CLASS_FILE_EXTENSION := ".class"
  const RUNTIME_RESOURCE_ROOT := "runtimeclasses/"

  /** `path` lies inside directory `dir`: it starts with `dir` and a separator. */
  predicate InDirectory(path: string, dir: string, separator: char) {
    |dir| < |path| && path[..|dir| + 1] == dir + [separator]
  }

  /** The directory the classes are written to: the fresh temporary directory when no
      output directory is given, otherwise `<outputDirectory>/<outputFile>_app`. */
  function ClassDirectory(outputDirectory: string, outputFile: string, tempDirectory: string, p: Platform): (r: string)
    ensures outputDirectory == "" ==> r == tempDirectory
    ensures outputDirectory != "" ==> |r| == |outputDirectory| + 1 + |outputFile| + |APP_DIRECTORY_SUFFIX|
    ensures outputDirectory != "" ==> InDirectory(r, outputDirectory, p.separator) && EndsWith(r, APP_DIRECTORY_SUFFIX)
    ensures outputDirectory != "" ==> r[|outputDirectory| + 1..|r| - |APP_DIRECTORY_SUFFIX|] == outputFile
  {
    if outputDirectory == "" then tempDirectory
    else
      var r := outputDirectory + [p.separator] + outputFile + APP_DIRECTORY_SUFFIX;
      assert r[..|outputDirectory| + 1] == outputDirectory + [p.separator];
      assert r[|outputDirectory| + 1..|r| - |APP_DIRECTORY_SUFFIX|] == outputFile;
      assert r[|r| - |APP_DIRECTORY_SUFFIX|..] == APP_DIRECTORY_SUFFIX;
      r
  }

  /** `new File(classDirectory, className + ".class")`: the file a class is written to. The
      class name can be read back from the path. */
  function ClassFilePath(classDirectory: string, className: string, p: Platform): (r: string)
    ensures |r| == |classDirectory| + 1 + |className| + |CLASS_FILE_EXTENSION|
    ensures InDirectory(r, classDirectory, p.separator) && EndsWith(r, CLASS_FILE_EXTENSION)
    ensures r[|classDirectory| + 1..|r| - |CLASS_FILE_EXTENSION|] == className
  {
    var r := classDirectory + [p.separator] + className + CLASS_FILE_EXTENSION;
    assert r[..|classDirectory| + 1] == classDirectory + [p.separator];
    assert r[|classDirectory| + 1..|r| - |CLASS_FILE_EXTENSION|] == className;
    assert r[|r| - |CLASS_FILE_EXTENSION|..] == CLASS_FILE_EXTENSION;
    r
  }

  /** Different classes are written to different files. */
  lemma ClassFilePathInjective(classDirectory: string, a: string, b: string, p: Platform)
    requires ClassFilePath(classDirectory, a, p) == ClassFilePath(classDirectory, b, p)
    ensures a == b
  {
  }

  /** The target of every class the assemblers produced, in the order they are produced. */
  function ClassFilePaths(classDirectory: string, classNames: seq<string>, p: Platform): (r: seq<string>)
    ensures |r| == |classNames|
    ensures forall i :: 0 <= i < |r| ==> InDirectory(r[i], classDirectory, p.separator)
    ensures forall i, j :: 0 <= i < |r| && 0 <= j < |r| && classNames[i] != classNames[j] ==> r[i] != r[j]
    ensures forall i :: 0 <= i < |r| ==> r[i] == ClassFilePath(classDirectory, classNames[i], p)
  {
    var r := seq(|classNames|, i requires 0 <= i < |classNames| => ClassFilePath(classDirectory, classNames[i], p));
    assert forall i :: 0 <= i < |r| ==> r[i] == ClassFilePath(classDirectory, classNames[i], p);
    r
  }

  /** `packageName.replaceAll("[.]", "/")`: the resource path of a package. */
  function PackagePath(packageName: string): (r: string)
    ensures |r| == |packageName| && '.' !in r
    ensures forall i :: 0 <= i < |r| ==> r[i] == if packageName[i] == '.' then '/' else packageName[i]
  {
    ReplaceChar(packageName, '.', '/')
  }

  /** One runtime class to copy: the resource it is read from and the file it is written to. */
  datatype RuntimeCopy = RuntimeCopy(resource: string, target: string)

  /** `copyRuntimeClasses(outputDirectory)` given the listing of the runtime package: every
      listed name ending in `.class` is read from `runtimeclasses/<packagePath>/<name>` and
      written to `Paths.get(outputDirectory, packagePath, name)`. */
  function RuntimeCopies(outputDirectory: string, runtimePackage: string, listing: seq<string>, p: Platform)
    : (r: seq<RuntimeCopy>)
    ensures |r| == |FilterEndsWith(listing, CLASS_FILE_EXTENSION)|
    ensures forall i :: 0 <= i < |r| ==>
      var name := FilterEndsWith(listing, CLASS_FILE_EXTENSION)[i];
      var packagePath := PackagePath(runtimePackage);
      r[i].resource == RUNTIME_RESOURCE_ROOT + packagePath + "/" + name &&
      r[i].target == outputDirectory + [p.separator] + packagePath + [p.separator] + name
  {
    var names := FilterEndsWith(listing, CLASS_FILE_EXTENSION);
    var packagePath := PackagePath(runtimePackage);
    seq(|names|, i requires 0 <= i < |names| =>
      RuntimeCopy(RUNTIME_RESOURCE_ROOT + packagePath + "/" + names[i],
                  outputDirectory + [p.separator] + packagePath + [p.separator] + names[i]))
  }

  /** Exactly the listed names that end in `.class` are copied, each as often as listed. */
  lemma RuntimeCopiesAreClassFiles(listing: seq<string>)
    ensures forall x :: x in FilterEndsWith(listing, CLASS_FILE_EXTENSION) <==> x in listing && EndsWith(x, CLASS_FILE_EXTENSION)
  {
    forall x
      ensures x in FilterEndsWith(listing, CLASS_FILE_EXTENSION) <==> x in listing && EndsWith(x, CLASS_FILE_EXTENSION)
    {
      var f := FilterEndsWith(listing, CLASS_FILE_EXTENSION);
      assert x in f <==> multiset(f)[x] > 0;
      assert x in listing <==> multiset(listing)[x] > 0;
    }
  }

  /** What follows the writing of the classes: run them at once, or package them. */
  datatype Dispatch =
    | Interpret(mainClass: string, outputDirectory: string)
    | CreateExecutable(outputDirectory: string, outputFile: string, mainClass: string)

  /** The whole effect of `classCodeEnd`: the class files written, the directory the runtime
      classes are copied into, the copies, and the final step. */
  datatype Layout = Layout(classFiles: seq<string>, runtimeDirectory: string,
                           runtimeCopies: seq<RuntimeCopy>, dispatch: Dispatch)

  /** `classCodeEnd(outputDirectory, outputFile, mainClass)`. `tempDirectory` is the directory
      `createTempDirectory` returns (used only when `outputDirectory` is empty), `classNames`
      the class names the assemblers produced, `runtimePackage` the name of the package of
      `Runtime` (`io.github.mmhelloworld.idrisjvm.runtime`) and `listing` its listing. */
  function ClassCodeEnd(outputDirectory: string, outputFile: string, mainClass: string, tempDirectory: string,
                        classNames: seq<string>, runtimePackage: string, listing: seq<string>, p: Platform)
    : (l: Layout)
    ensures l.dispatch.Interpret? <==> outputDirectory == ""
    ensures outputDirectory == "" ==> l.runtimeDirectory == tempDirectory && l.dispatch.outputDirectory == tempDirectory
    ensures outputDirectory != "" ==>
      l.runtimeDirectory == outputDirectory + [p.separator] + outputFile + APP_DIRECTORY_SUFFIX &&
      l.dispatch.outputDirectory == outputDirectory && l.dispatch.outputFile == outputFile
    ensures |l.classFiles| == |classNames|
    ensures forall i :: 0 <= i < |classNames| ==> l.classFiles[i] == ClassFilePath(l.runtimeDirectory, classNames[i], p)
    ensures |l.dispatch.mainClass| == |mainClass| && '/' !in l.dispatch.mainClass
    ensures forall i :: 0 <= i < |mainClass| ==>
      l.dispatch.mainClass[i] == if mainClass[i] == '/' then '.' else mainClass[i]
    ensures l.runtimeCopies == RuntimeCopies(l.runtimeDirectory, runtimePackage, listing, p)
  {
    var classDirectory := ClassDirectory(outputDirectory, outputFile, tempDirectory, p);
    var classFiles := ClassFilePaths(classDirectory, classNames, p);
    var mainClassNoSlash := ReplaceChar(mainClass, '/', '.');
    if outputDirectory == "" then
      Layout(classFiles, tempDirectory, RuntimeCopies(tempDirectory, runtimePackage, listing, p),
             Interpret(mainClassNoSlash, tempDirectory))
    else
      Layout(classFiles, classDirectory, RuntimeCopies(classDirectory, runtimePackage, listing, p),
             CreateExecutable(outputDirectory, outputFile, mainClassNoSlash))
  }

  /** Package mode with output directory `/tmp/out`, file `prog` and entry class `Main/main`
      writes the classes and the runtime into `/tmp/out/prog_app` and packages with exactly
      `("/tmp/out", "prog", "Main.main")`. */
  lemma PackageModeExample(outputDirectory: string, outputFile: string, mainClass: string, tempDirectory: string,
                           classNames: seq<string>, runtimePackage: string, listing: seq<string>)
    requires outputDirectory == "/tmp/out" && outputFile == "prog" && mainClass == "Main/main"
    ensures var l := ClassCodeEnd(outputDirectory, outputFile, mainClass, tempDirectory, classNames,
                                  runtimePackage, listing, Platform('/', ':'));
      l.runtimeDirectory == "/tmp/out/prog_app" && l.dispatch == CreateExecutable("/tmp/out", "prog", "Main.main")
  {
    var l := ClassCodeEnd(outputDirectory, outputFile, mainClass, tempDirectory, classNames,
                          runtimePackage, listing, Platform('/', ':'));
    var dotted := l.dispatch.mainClass;
    assert forall i :: 0 <= i < |mainClass| ==> dotted[i] == "Main.main"[i];
    assert dotted == "Main.main";
    assert outputDirectory + ['/'] + outputFile + APP_DIRECTORY_SUFFIX == "/tmp/out/prog_app";
  }
}
