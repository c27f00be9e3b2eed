/** The command `interpret` starts: `java`, the configured options, the class path and the
    entry class. Starting the process and waiting for it are not modelled. */
module Launch {
  import opened JavaLang
  import opened JavaStrings
  import opened Configuration

  /** `String.join(pathSeparator, outputDirectory, outputDirectory + separator + jar, javaClassPath)`. */
  function Classpath(outputDirectory: string, runtimeJarName: string, javaClassPath: string, p: Platform): (r: string)
    ensures r == outputDirectory + [p.pathSeparator] + (outputDirectory + [p.separator] + runtimeJarName + [p.pathSeparator] + javaClassPath)
  {
    var jar := outputDirectory + [p.separator] + runtimeJarName;
    JoinThree(outputDirectory, jar, javaClassPath, p.pathSeparator);
    Join([outputDirectory, jar, javaClassPath], p.pathSeparator)
  }

  /** Read back as a class path, the entries are the output directory, the runtime jar inside
      it, and then the entries of the tool's own class path, in that order. */
  lemma ClasspathEntries(outputDirectory: string, runtimeJarName: string, javaClassPath: string, p: Platform)
    requires p.pathSeparator !in outputDirectory && p.pathSeparator !in runtimeJarName
    requires p.separator != p.pathSeparator
    ensures SplitOn(Classpath(outputDirectory, runtimeJarName, javaClassPath, p), p.pathSeparator)
         == [outputDirectory, outputDirectory + [p.separator] + runtimeJarName] + SplitOn(javaClassPath, p.pathSeparator)
  {
    var c := p.pathSeparator;
    var jar := outputDirectory + [p.separator] + runtimeJarName;
    SeparatorFree(outputDirectory, p.separator, runtimeJarName, c);
    SplitOnCons2(outputDirectory, jar, javaClassPath, c);
  }

  lemma SeparatorFree(dir: string, separator: char, name: string, c: char)
    requires c !in dir && c !in name && c != separator
    ensures c !in dir + [separator] + name
  {
    var s := dir + [separator] + name;
    forall i | 0 <= i < |s| ensures s[i] != c {
      if i < |dir| {
        assert s[i] == dir[i];
      } else if i > |dir| {
        assert s[i] == name[i - |dir| - 1];
      }
    }
  }

  lemma JoinThree(a: string, b: string, t: string, c: char)
    ensures Join([a, b, t], c) == a + [c] + (b + [c] + t)
  {
    var parts := [a, b, t];
    assert parts[1..] == [b, t] && parts[1..][1..] == [t];
    assert Join([t], c) == t;
    assert Join([b, t], c) == b + [c] + t;
  }

  /** The argument list of the process: `java`, the options, `-cp`, the class path and the
      entry class. */
  function Command(javaOptions: seq<string>, classpath: string, mainClass: string): (cmd: seq<string>)
    ensures |cmd| == |javaOptions| + 4 && cmd[0] == "java"
    ensures cmd[1..|javaOptions| + 1] == javaOptions
    ensures cmd[|javaOptions| + 1..] == ["-cp", classpath, mainClass]
  {
    ["java"] + javaOptions + ["-cp", classpath, mainClass]
  }

  /** What `interpret` hands to the operating system: the argument list, the working
      directory, and how many seconds it waits before returning (the child keeps running). */
  datatype ProcessLaunch = ProcessLaunch(command: seq<string>, workingDirectory: string, timeoutSeconds: int)

  /** `interpret(mainClass, outputDirectory)` with the class's static configuration, the
      tool's own `java.class.path`, and the working directory the runtime tracks. */
  function Interpret(statics: Statics, mainClass: string, outputDirectory: string, javaClassPath: string,
                     workingDirectory: string, p: Platform): (l: ProcessLaunch)
    ensures l.command == Command(statics.javaOptions,
                                 Classpath(outputDirectory, statics.runtimeJarName, javaClassPath, p), mainClass)
    ensures l.workingDirectory == workingDirectory && l.timeoutSeconds == statics.replTimeout
  {
    var classpath := Classpath(outputDirectory, statics.runtimeJarName, javaClassPath, p);
    ProcessLaunch(Command(statics.javaOptions, classpath, mainClass), workingDirectory, statics.replTimeout)
  }

  /** With no `JAVA_OPTS` and no `IDRIS_REPL_TIMEOUT` set, `interpret` runs
      `java -Xss8m -cp <classpath> <mainClass>` and waits 30 seconds. */
  lemma DefaultInterpret(e: Environment, version: Nullable<string>, mainClass: string, outputDirectory: string,
                         javaClassPath: string, workingDirectory: string, p: Platform)
    requires JAVA_OPTS !in e.systemProperties && JAVA_OPTS !in e.variables
    requires IDRIS_REPL_TIMEOUT !in e.systemProperties && IDRIS_REPL_TIMEOUT !in e.variables
    ensures InitStatics(e, version).Ok?
    ensures var l := Interpret(InitStatics(e, version).value, mainClass, outputDirectory, javaClassPath, workingDirectory, p);
      l.command == ["java", DEFAULT_JAVA_OPTS, "-cp",
                    Classpath(outputDirectory, RuntimeJarName(version), javaClassPath, p), mainClass] &&
      l.timeoutSeconds == 30
  {
    DefaultStatics(e, version);
  }
}
