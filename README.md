# AsmGlobalState of idris-jvm, in Dafny

`AsmGlobalState` is the shared state of the idris-jvm code generator during one compilation.
It holds these stores:

- the compiled functions;
- the names of the data constructors already emitted;
- one `Assembler` per generated class;
- the read-only table of definitions to compile.

Once the generator's workers have filled these stores, `classCodeEnd` does the following:

- writes every class file under the class directory;
- copies the runtime classes next to them;
- then either starts `java` on the result (`interpret`, when no output directory is given) or builds an executable.

The class's static initialiser reads this configuration:

- `JAVA_OPTS`, split on whitespace;
- `IDRIS_REPL_TIMEOUT`, parsed as a 32-bit integer;
- the runtime jar name, from the project version.

The model has six modules:

- `JavaLang` (`java_lang.dfy`): Java's `null`, a result-or-exception type, the platform separators, and `NumberFormatException`.
- `JavaStrings` (`java_strings.dfy`): the library string operations the class relies on, with what they guarantee proved:
  - `replace`/`replaceAll` of one character;
  - `endsWith` filtering;
  - `String.join` and splitting on a character;
  - `split("\\s+")`, exactly as Java defines it: a string with no whitespace is returned whole, a leading separator gives a leading empty string, and trailing empty strings are dropped;
  - `Integer.parseInt`.
- `Configuration` (`configuration.dfy`): system-property-then-environment lookup, the three static fields, and their defaults.
- `OutputLayout` (`output_layout.dfy`): `classCodeEnd` as a pure description of what it writes and where. This covers the class directory, the class file paths, the runtime class copies (resource name and target path), and which final step runs with which arguments.
- `Launch` (`launch.dfy`): the class path and argument list `interpret` builds, its working directory, and its wait time.
- `Registry` (`registry.dfy`): the class `AsmGlobalState` itself. Its maps and set are fields that the methods update in place. An `Assembler` is an object whose identity is what matters, and the invariant `Valid` says no two class names share one.

Java `Object` values that may be `null` are `Nullable<T>`. The platform's `File.separator` and `File.pathSeparator` are a `Platform` parameter.

## Model

| member | source | states |
|---|---|---|
| JavaStrings.ReplaceChar | idris-jvm-assembler/src/main/java/io/github/mmhelloworld/idrisjvm/assembler/AsmGlobalState.java:149 | every occurrence of the character is replaced and every other position is kept |
| JavaStrings.ReplaceCharRemovesAll | idris-jvm-assembler/src/main/java/io/github/mmhelloworld/idrisjvm/assembler/AsmGlobalState.java:149 | after replacing `from` by a different character, `from` no longer occurs |
| JavaStrings.ReplaceCharUndo | idris-jvm-assembler/src/main/java/io/github/mmhelloworld/idrisjvm/assembler/AsmGlobalState.java:149 | when `to` did not occur, replacing back restores the original string |
| JavaStrings.Join | idris-jvm-assembler/src/main/java/io/github/mmhelloworld/idrisjvm/assembler/AsmGlobalState.java:161-162 | the parts in order with one separator between neighbours: the first part is a prefix and the length is the parts' total plus one per separator |
| JavaStrings.FilterEndsWith | idris-jvm-assembler/src/main/java/io/github/mmhelloworld/idrisjvm/assembler/AsmGlobalState.java:72-73 | keeps exactly the names with the suffix, each as often as in the listing, and drops the rest |
| JavaStrings.IndexOf | idris-jvm-assembler/src/main/java/io/github/mmhelloworld/idrisjvm/assembler/AsmGlobalState.java:161-162 | the first position of the separator, or the length when it does not occur |
| JavaStrings.SplitOn | idris-jvm-assembler/src/main/java/io/github/mmhelloworld/idrisjvm/assembler/AsmGlobalState.java:161-162 | splitting on a separator gives at least one piece and no piece contains the separator |
| JavaStrings.SplitOnCons | idris-jvm-assembler/src/main/java/io/github/mmhelloworld/idrisjvm/assembler/AsmGlobalState.java:161-162 | a separator-free leading entry comes off as the first piece |
| JavaStrings.SplitOnCons2 | idris-jvm-assembler/src/main/java/io/github/mmhelloworld/idrisjvm/assembler/AsmGlobalState.java:161-162 | two separator-free leading entries come off as the first two pieces |
| JavaStrings.SplitOnJoin | idris-jvm-assembler/src/main/java/io/github/mmhelloworld/idrisjvm/assembler/AsmGlobalState.java:161-162 | splitting a joined list of separator-free entries gives the list back |
| JavaStrings.JoinSplitOn | idris-jvm-assembler/src/main/java/io/github/mmhelloworld/idrisjvm/assembler/AsmGlobalState.java:161-162 | joining the pieces of a split gives the string back |
| JavaStrings.NonWhitespacePrefix | idris-jvm-assembler/src/main/java/io/github/mmhelloworld/idrisjvm/assembler/AsmGlobalState.java:92 | the length of the longest whitespace-free prefix |
| JavaStrings.WhitespacePrefix | idris-jvm-assembler/src/main/java/io/github/mmhelloworld/idrisjvm/assembler/AsmGlobalState.java:92 | the length of the longest whitespace prefix |
| JavaStrings.Fields | idris-jvm-assembler/src/main/java/io/github/mmhelloworld/idrisjvm/assembler/AsmGlobalState.java:92 | the pieces between whitespace runs, always at least one, as the matcher loop of `split` always adds the tail after the last match |
| JavaStrings.FieldsOfNoWhitespace | idris-jvm-assembler/src/main/java/io/github/mmhelloworld/idrisjvm/assembler/AsmGlobalState.java:92 | a string without whitespace is its own single field, as `split` returns it whole |
| JavaStrings.FieldsStep | idris-jvm-assembler/src/main/java/io/github/mmhelloworld/idrisjvm/assembler/AsmGlobalState.java:92 | the fields are the whitespace-free first piece, then after a maximal non-empty whitespace run the fields of the rest |
| JavaStrings.DropTrailingEmpty | idris-jvm-assembler/src/main/java/io/github/mmhelloworld/idrisjvm/assembler/AsmGlobalState.java:92 | removes trailing empty strings only; the result is empty or ends in a non-empty string |
| JavaStrings.SplitWhitespace | idris-jvm-assembler/src/main/java/io/github/mmhelloworld/idrisjvm/assembler/AsmGlobalState.java:92 | the result is the input alone exactly when the input holds no whitespace, as `split` returns an unmatched string whole |
| JavaStrings.SplitWhitespaceTokens | idris-jvm-assembler/src/main/java/io/github/mmhelloworld/idrisjvm/assembler/AsmGlobalState.java:92 | no option holds whitespace, and only the first may be empty |
| JavaStrings.SplitWhitespaceConcat | idris-jvm-assembler/src/main/java/io/github/mmhelloworld/idrisjvm/assembler/AsmGlobalState.java:92 | the options, concatenated, are the setting with its whitespace removed |
| JavaStrings.SplitWhitespaceNone | idris-jvm-assembler/src/main/java/io/github/mmhelloworld/idrisjvm/assembler/AsmGlobalState.java:92 | the split is empty exactly when the setting is non-empty and all whitespace |
| JavaStrings.SplitWhitespaceFirst | idris-jvm-assembler/src/main/java/io/github/mmhelloworld/idrisjvm/assembler/AsmGlobalState.java:92 | the first option is empty exactly when the setting is empty, or starts with whitespace and holds something else |
| JavaStrings.SplitWhitespaceJoin | idris-jvm-assembler/src/main/java/io/github/mmhelloworld/idrisjvm/assembler/AsmGlobalState.java:92 | options joined by single spaces split back into the same options |
| JavaStrings.ParseInt | idris-jvm-assembler/src/main/java/io/github/mmhelloworld/idrisjvm/assembler/AsmGlobalState.java:40 | a parsed value is in the 32-bit range; a failure is a NumberFormatException for the input |
| JavaStrings.DecimalString | idris-jvm-assembler/src/main/java/io/github/mmhelloworld/idrisjvm/assembler/AsmGlobalState.java:40 | the decimal digits of a number, whose value is that number; the first digit is `0` only for the one-digit string of 0 |
| JavaStrings.ParseIntDecimalString | idris-jvm-assembler/src/main/java/io/github/mmhelloworld/idrisjvm/assembler/AsmGlobalState.java:40 | every 32-bit integer, written in decimal with a minus sign when negative, parses back to itself |
| JavaStrings.ParseIntAcceptsOnlyDecimals | idris-jvm-assembler/src/main/java/io/github/mmhelloworld/idrisjvm/assembler/AsmGlobalState.java:40 | parsing succeeds only on an optional `+`/`-` followed by at least one digit and nothing else, so `""`, `"-"`, `" 30"` and `"3a"` throw |
| JavaStrings.ParseIntSigned | idris-jvm-assembler/src/main/java/io/github/mmhelloworld/idrisjvm/assembler/AsmGlobalState.java:40 | an optional sign followed by digits parses to their value, negated after `-`, when it fits in 32 bits |
| JavaStrings.ParseIntOutOfRange | idris-jvm-assembler/src/main/java/io/github/mmhelloworld/idrisjvm/assembler/AsmGlobalState.java:40 | an optional sign followed by digits whose value is outside the 32-bit range throws `NumberFormatException`: `"2147483648"` is rejected, not clamped or wrapped |
| JavaStrings.ParseIntPadded | idris-jvm-assembler/src/main/java/io/github/mmhelloworld/idrisjvm/assembler/AsmGlobalState.java:40 | leading zeros after the sign change nothing: `"+30"` and `"030"` give 30 |
| Configuration.GetProperty | idris-jvm-assembler/src/main/java/io/github/mmhelloworld/idrisjvm/assembler/AsmGlobalState.java:95-98 | a system property wins over an environment variable, which wins over the default |
| Configuration.JavaOptions | idris-jvm-assembler/src/main/java/io/github/mmhelloworld/idrisjvm/assembler/AsmGlobalState.java:90-93 | every option is whitespace-free, and the options together are the setting's non-whitespace characters in order |
| Configuration.RuntimeJarName | idris-jvm-assembler/src/main/java/io/github/mmhelloworld/idrisjvm/assembler/AsmGlobalState.java:109-114 | the name is `idris-jvm-runtime-`, then the version, then `.jar`; a missing version gives exactly `idris-jvm-runtime-null.jar` |
| Configuration.RuntimeJarNameInjective | idris-jvm-assembler/src/main/java/io/github/mmhelloworld/idrisjvm/assembler/AsmGlobalState.java:109-114 | different versions give different jar names |
| Configuration.InitStatics | idris-jvm-assembler/src/main/java/io/github/mmhelloworld/idrisjvm/assembler/AsmGlobalState.java:38-49 | initialisation succeeds exactly when the timeout parses; the three fields then hold the options, the timeout and the jar name |
| Configuration.DefaultJavaOptions | idris-jvm-assembler/src/main/java/io/github/mmhelloworld/idrisjvm/assembler/AsmGlobalState.java:90-93 | without `JAVA_OPTS` the options are `[-Xss8m]` |
| Configuration.JavaOptionsOfSetting | idris-jvm-assembler/src/main/java/io/github/mmhelloworld/idrisjvm/assembler/AsmGlobalState.java:90-93 | a setting of options separated by single spaces gives back those options |
| Configuration.JavaOptionsLeadingWhitespace | idris-jvm-assembler/src/main/java/io/github/mmhelloworld/idrisjvm/assembler/AsmGlobalState.java:90-93 | a setting that starts with whitespace and holds some non-whitespace character yields a leading empty option, which is passed to `java` |
| Configuration.ReplTimeout | idris-jvm-assembler/src/main/java/io/github/mmhelloworld/idrisjvm/assembler/AsmGlobalState.java:40 | the timeout is a 32-bit value, or a `NumberFormatException` for the text of the setting |
| Configuration.DefaultReplTimeout | idris-jvm-assembler/src/main/java/io/github/mmhelloworld/idrisjvm/assembler/AsmGlobalState.java:40 | without `IDRIS_REPL_TIMEOUT` the timeout is 30 |
| Configuration.DefaultStatics | idris-jvm-assembler/src/main/java/io/github/mmhelloworld/idrisjvm/assembler/AsmGlobalState.java:38-49 | with neither variable set, initialisation succeeds with `[-Xss8m]`, 30 and the jar name |
| OutputLayout.ClassDirectory | idris-jvm-assembler/src/main/java/io/github/mmhelloworld/idrisjvm/assembler/AsmGlobalState.java:142-145 | the temporary directory when the output directory is empty; otherwise `<outputDirectory>/<outputFile>_app` |
| OutputLayout.ClassFilePath | idris-jvm-assembler/src/main/java/io/github/mmhelloworld/idrisjvm/assembler/AsmGlobalState.java:174-175 | `<dir>/<className>.class`, from which the class name can be read back |
| OutputLayout.ClassFilePathInjective | idris-jvm-assembler/src/main/java/io/github/mmhelloworld/idrisjvm/assembler/AsmGlobalState.java:174-175 | different class names give different path strings (one file system path may still be spelt by two strings) |
| OutputLayout.ClassFilePaths | idris-jvm-assembler/src/main/java/io/github/mmhelloworld/idrisjvm/assembler/AsmGlobalState.java:146-148 | one path per class, `<classDirectory>/<className>.class` in order, all inside the class directory, and distinct for distinct classes |
| OutputLayout.PackagePath | idris-jvm-assembler/src/main/java/io/github/mmhelloworld/idrisjvm/assembler/AsmGlobalState.java:67-68 | the package name with each `.` turned into `/` and every other character kept, position by position |
| OutputLayout.RuntimeCopies | idris-jvm-assembler/src/main/java/io/github/mmhelloworld/idrisjvm/assembler/AsmGlobalState.java:66-88 | one copy per `.class` entry of the listing, from `runtimeclasses/<packagePath>/<name>` to `<dir>/<packagePath>/<name>` |
| OutputLayout.RuntimeCopiesAreClassFiles | idris-jvm-assembler/src/main/java/io/github/mmhelloworld/idrisjvm/assembler/AsmGlobalState.java:72-73 | the runtime classes copied are exactly the listing's `.class` entries |
| OutputLayout.ClassCodeEnd | idris-jvm-assembler/src/main/java/io/github/mmhelloworld/idrisjvm/assembler/AsmGlobalState.java:140-158 | interpret mode iff the output directory is empty. It also states the class directory of each mode, the class files, the runtime copies, and the main class with `/` replaced by `.` |
| OutputLayout.PackageModeExample | idris-jvm-assembler/src/main/java/io/github/mmhelloworld/idrisjvm/assembler/AsmGlobalState.java:140-158 | `/tmp/out`, `prog` and `Main/main` give `/tmp/out/prog_app` and build the executable for `Main.main` |
| Launch.Classpath | idris-jvm-assembler/src/main/java/io/github/mmhelloworld/idrisjvm/assembler/AsmGlobalState.java:161-162 | the output directory, the path separator, the runtime jar inside the output directory, the path separator, then the tool's own class path |
| Launch.ClasspathEntries | idris-jvm-assembler/src/main/java/io/github/mmhelloworld/idrisjvm/assembler/AsmGlobalState.java:161-162 | the class path reads back as the output directory, the runtime jar in it, then the tool's own class path entries |
| Launch.Command | idris-jvm-assembler/src/main/java/io/github/mmhelloworld/idrisjvm/assembler/AsmGlobalState.java:163-166 | `java`, then the options in order, then `-cp`, the class path and the main class |
| Launch.Interpret | idris-jvm-assembler/src/main/java/io/github/mmhelloworld/idrisjvm/assembler/AsmGlobalState.java:160-172 | the process gets that command, the runtime's working directory and the configured timeout |
| Launch.DefaultInterpret | idris-jvm-assembler/src/main/java/io/github/mmhelloworld/idrisjvm/assembler/AsmGlobalState.java:160-172 | with default settings the command is `java -Xss8m -cp <classpath> <mainClass>`, with a 30-second wait |
| Registry.AsmGlobalState.constructor | idris-jvm-assembler/src/main/java/io/github/mmhelloworld/idrisjvm/assembler/AsmGlobalState.java:57-64 | a new state keeps the program name and definitions and has empty stores |
| Registry.AsmGlobalState.AddFunction | idris-jvm-assembler/src/main/java/io/github/mmhelloworld/idrisjvm/assembler/AsmGlobalState.java:116-118 | the value is recorded under the name, replacing an earlier one; nothing else changes |
| Registry.AsmGlobalState.GetFunction | idris-jvm-assembler/src/main/java/io/github/mmhelloworld/idrisjvm/assembler/AsmGlobalState.java:120-122 | the value recorded under the name, or `null` |
| Registry.AsmGlobalState.GetAssembler | idris-jvm-assembler/src/main/java/io/github/mmhelloworld/idrisjvm/assembler/AsmGlobalState.java:124-126 | the remembered assembler, or a fresh one that is remembered; distinct classes keep distinct assemblers |
| Registry.AsmGlobalState.GetProgramName | idris-jvm-assembler/src/main/java/io/github/mmhelloworld/idrisjvm/assembler/AsmGlobalState.java:128-130 | the name the state was created with |
| Registry.AsmGlobalState.HasConstructor | idris-jvm-assembler/src/main/java/io/github/mmhelloworld/idrisjvm/assembler/AsmGlobalState.java:132-134 | true exactly when the constructor was recorded |
| Registry.AsmGlobalState.AddConstructor | idris-jvm-assembler/src/main/java/io/github/mmhelloworld/idrisjvm/assembler/AsmGlobalState.java:136-138 | the constructor is added to the set; nothing else changes |
| Registry.AsmGlobalState.GetFcAndDefinition | idris-jvm-assembler/src/main/java/io/github/mmhelloworld/idrisjvm/assembler/AsmGlobalState.java:190-193 | the definition when present and non-null; otherwise an exception saying `Unable to find function <name>` |
| Registry.NewStateIsEmpty | idris-jvm-assembler/src/main/java/io/github/mmhelloworld/idrisjvm/assembler/AsmGlobalState.java:57-64 | a new state has no function and no constructor, and keeps its program name |
| Registry.LastWriteWins | idris-jvm-assembler/src/main/java/io/github/mmhelloworld/idrisjvm/assembler/AsmGlobalState.java:116-122 | the later of two values recorded under one name is the one read back; constructors are unaffected |
| Registry.AssemblerPerClass | idris-jvm-assembler/src/main/java/io/github/mmhelloworld/idrisjvm/assembler/AsmGlobalState.java:124-126 | asking again gives the same assembler; two classes share one only if they are the same class |
| Registry.AddConstructorTwice | idris-jvm-assembler/src/main/java/io/github/mmhelloworld/idrisjvm/assembler/AsmGlobalState.java:132-138 | recording a constructor twice is the same as once, and it is known afterwards |

## Left out

- File system effects are not modelled. This covers the temporary directory, `mkdirs`, the buffered copy loop and its `BUFFER_SIZE`, reading the resource listing, and writing class bytes. The model describes which files are written where. The temporary directory's name and the resource listing are parameters.
- `project.properties` is not read; the project version is a parameter.
- Starting the process, inheriting its I/O, and `waitFor` are not modelled. Only the command, working directory and wait time handed to the operating system are.
- The tool's own `java.class.path` and the runtime's working directory are parameters. A `null` `java.class.path` is not modelled.
- Concurrency is not modelled: `synchronized` and `parallelStream`. Each method is modelled as one atomic step.
- The internals of `Assembler` are not part of this model: `classInitEnd`, `getClassWriters`, `createExecutable` and the class bytes. The class names that `getClassNameAndClassWriters` yields are a parameter of `OutputLayout.ClassCodeEnd`.
- `writeClass` prints and swallows write failures; with no I/O modelled there is nothing to fail.
- The name of `Runtime`'s package is a parameter of `OutputLayout.ClassCodeEnd` and `OutputLayout.RuntimeCopies`, not a constant: the model states the copies for any package name.
- Path normalisation by `File` and `Paths.get` is not modelled. Paths are the plain concatenation with the separator.
- JavaStrings.ParseInt: accepts only ASCII digits; Java also accepts other Unicode decimal digits.
- Registry.AsmGlobalState.GetFcAndDefinition: reads its own copy of the definitions map; writes by the caller to the shared `Map` after construction are not modelled.
- Failures during class initialisation other than a malformed `IDRIS_REPL_TIMEOUT` are not modelled. An `IOException` while reading `project.properties` is wrapped by the static block in a `RuntimeException`; a missing `project.properties` makes `getResourceAsStream` return `null`, so `Properties.load` throws a `NullPointerException`, which that block does not catch.
