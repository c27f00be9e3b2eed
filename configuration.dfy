/** The static configuration of `AsmGlobalState`: the values its class initialiser reads
    from system properties, environment variables and the bundled project version. */
module Configuration {
  import opened JavaLang
  import opened JavaStrings

  /** The JVM's system properties and the process environment when the class is initialised. */
  datatype Environment = Environment(systemProperties: map<string, string>, variables: map<string, string>)

  const JAVA_OPTS := "JAVA_OPTS"
  const DEFAULT_JAVA_OPTS := "-Xss8m"
  const IDRIS_REPL_TIMEOUT := "IDRIS_REPL_TIMEOUT"
  const DEFAULT_REPL_TIMEOUT := "30"
  const RUNTIME_JAR_PREFIX := "idris-jvm-runtime-"
  const RUNTIME_JAR_SUFFIX := ".jar"

  /** `getProperty(name, default)`: `System.getProperty(name, System.getenv(name))`, with
      `default` standing in for a null outcome. The system property wins over the environment
      variable, which wins over the default. */
  function GetProperty(e: Environment, name: string, default: string): (r: string)
    ensures name in e.systemProperties ==> r == e.systemProperties[name]
    ensures name !in e.systemProperties && name in e.variables ==> r == e.variables[name]
    ensures name !in e.systemProperties && name !in e.variables ==> r == default
  {
    var fromEnvironment := if name in e.variables then NonNull(e.variables[name]) else Null;
    var value := if name in e.systemProperties then NonNull(e.systemProperties[name]) else fromEnvironment;
    if value.Null? then default else value.value
  }

  /** `JAVA_OPTIONS`: the `JAVA_OPTS` setting split on runs of whitespace. */
  function JavaOptions(e: Environment): (r: seq<string>)
    ensures forall i :: 0 <= i < |r| ==> NoWhitespace(r[i])
    ensures Concat(r) == RemoveWhitespace(GetProperty(e, JAVA_OPTS, DEFAULT_JAVA_OPTS))
  {
    var setting := GetProperty(e, JAVA_OPTS, DEFAULT_JAVA_OPTS);
    SplitWhitespaceTokens(setting);
    SplitWhitespaceConcat(setting);
    SplitWhitespace(setting)
  }

  /** `IDRIS_REPL_TIMEOUT`: the `IDRIS_REPL_TIMEOUT` setting read as a decimal `int`. */
  function ReplTimeout(e: Environment): (r: Result<int, NumberFormatException>)
    ensures r.Ok? ==> MIN_INT <= r.value <= MAX_INT
    ensures r.Err? ==> r.error.input == GetProperty(e, IDRIS_REPL_TIMEOUT, DEFAULT_REPL_TIMEOUT)
  {
    ParseInt(GetProperty(e, IDRIS_REPL_TIMEOUT, DEFAULT_REPL_TIMEOUT))
  }

  /** `format("idris-jvm-runtime-%s.jar", version)`, where `%s` prints a null version as `null`. */
  function RuntimeJarName(version: Nullable<string>): (r: string)
    ensures |r| >= |RUNTIME_JAR_PREFIX| + |RUNTIME_JAR_SUFFIX|
    ensures r[..|RUNTIME_JAR_PREFIX|] == RUNTIME_JAR_PREFIX && EndsWith(r, RUNTIME_JAR_SUFFIX)
    ensures version.NonNull? ==> r[|RUNTIME_JAR_PREFIX|..|r| - |RUNTIME_JAR_SUFFIX|] == version.value
    ensures version.Null? ==> r == RUNTIME_JAR_PREFIX + "null" + RUNTIME_JAR_SUFFIX
  {
    var text := if version.Null? then "null" else version.value;
    var r := RUNTIME_JAR_PREFIX + text + RUNTIME_JAR_SUFFIX;
    assert r[..|RUNTIME_JAR_PREFIX|] == RUNTIME_JAR_PREFIX;
    assert r[|RUNTIME_JAR_PREFIX|..|r| - |RUNTIME_JAR_SUFFIX|] == text;
    assert r[|r| - |RUNTIME_JAR_SUFFIX|..] == RUNTIME_JAR_SUFFIX;
    r
  }

  /** Two versions give the same jar name only when they are equal. */
  lemma RuntimeJarNameInjective(v: string, w: string)
    requires RuntimeJarName(NonNull(v)) == RuntimeJarName(NonNull(w))
    ensures v == w
  {
  }

  /** The class's static fields once initialised. */
  datatype Statics = Statics(javaOptions: seq<string>, replTimeout: int, runtimeJarName: string)

  /** The static initialisation of the class, in textual order: `JAVA_OPTIONS`, then
      `IDRIS_REPL_TIMEOUT`, whose `NumberFormatException` makes the initialisation (and so
      every use of the class) fail, then `RUNTIME_JAR_NAME` from the project version. */
  function InitStatics(e: Environment, version: Nullable<string>): (r: Result<Statics, NumberFormatException>)
    ensures r.Ok? <==> ReplTimeout(e).Ok?
    ensures r.Ok? ==> r.value.replTimeout == ReplTimeout(e).value && MIN_INT <= r.value.replTimeout <= MAX_INT
    ensures r.Ok? ==> r.value.javaOptions == JavaOptions(e) && r.value.runtimeJarName == RuntimeJarName(version)
    ensures r.Err? ==> r.error.input == GetProperty(e, IDRIS_REPL_TIMEOUT, DEFAULT_REPL_TIMEOUT)
  {
    var javaOptions := JavaOptions(e);
    match ReplTimeout(e)
    case Err(nfe) => Err(nfe)
    case Ok(timeout) => Ok(Statics(javaOptions, timeout, RuntimeJarName(version)))
  }

  /** With `JAVA_OPTS` set nowhere, the Java options are exactly `["-Xss8m"]`. */
  lemma DefaultJavaOptions(e: Environment)
    requires JAVA_OPTS !in e.systemProperties && JAVA_OPTS !in e.variables
    ensures JavaOptions(e) == [DEFAULT_JAVA_OPTS]
  {
    assert NoWhitespace(DEFAULT_JAVA_OPTS);
  }

  /** A `JAVA_OPTS` setting of non-empty, whitespace-free options separated by single spaces
      yields exactly those options, in order. */
  lemma JavaOptionsOfSetting(e: Environment, opts: seq<string>)
    requires |opts| >= 1
    requires forall i :: 0 <= i < |opts| ==> opts[i] != "" && NoWhitespace(opts[i])
    requires GetProperty(e, JAVA_OPTS, DEFAULT_JAVA_OPTS) == Join(opts, ' ')
    ensures JavaOptions(e) == opts
  {
    SplitWhitespaceJoin(opts);
  }

  /** A `JAVA_OPTS` setting with leading whitespace before some option yields an empty first
      option, which is passed on to `java` as an empty argument. */
  lemma JavaOptionsLeadingWhitespace(e: Environment)
    requires var s := GetProperty(e, JAVA_OPTS, DEFAULT_JAVA_OPTS);
             s != "" && IsWhitespace(s[0]) && RemoveWhitespace(s) != ""
    ensures |JavaOptions(e)| >= 2 && JavaOptions(e)[0] == ""
  {
    var s := GetProperty(e, JAVA_OPTS, DEFAULT_JAVA_OPTS);
    SplitWhitespaceFirst(s);
    SplitWhitespaceNone(s);
    SplitWhitespaceConcat(s);
  }

  /** With `IDRIS_REPL_TIMEOUT` set nowhere, the timeout is 30 seconds. */
  lemma DefaultReplTimeout(e: Environment)
    requires IDRIS_REPL_TIMEOUT !in e.systemProperties && IDRIS_REPL_TIMEOUT !in e.variables
    ensures ReplTimeout(e) == Ok(30)
  {
    ParseIntDecimalString(30);
    assert DecimalString(30) == DEFAULT_REPL_TIMEOUT;
  }

  /** With neither setting present, initialisation succeeds with the documented defaults. */
  lemma DefaultStatics(e: Environment, version: Nullable<string>)
    requires JAVA_OPTS !in e.systemProperties && JAVA_OPTS !in e.variables
    requires IDRIS_REPL_TIMEOUT !in e.systemProperties && IDRIS_REPL_TIMEOUT !in e.variables
    ensures InitStatics(e, version) == Ok(Statics([DEFAULT_JAVA_OPTS], 30, RuntimeJarName(version)))
  {
    DefaultJavaOptions(e);
    DefaultReplTimeout(e);
  }
}
