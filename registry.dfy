/** The per-compilation store the code generator shares between its workers: compiled
    functions, the names of the data constructors already emitted, one assembler per class,
    and the read-only table of definitions to compile. */
module Registry {
  import opened JavaLang

  /** An assembler collects the bytecode of one class. Only its identity matters here: the
      store hands out the same assembler for the same class name every time. */
  class Assembler {
    constructor ()
    {
    }
  }

  /** The unchecked exception the compiler raises for an internal failure. */
  datatype IdrisJvmException = IdrisJvmException(message: string)

  /** The message of the exception raised when a definition is missing. */
  const UNABLE_TO_FIND_FUNCTION := "Unable to find function "

  /** `AsmGlobalState`. `V` stands for the function values and `D` for the definitions, both
      `Object` in the original, which may be `null` in a `HashMap`. */
  class AsmGlobalState<V, D> {
    const programName: string
    /** The map the caller passes in; this class only reads it. */
    const fcAndDefinitionsByName: map<string, Nullable<D>>
    var functions: map<string, Nullable<V>>
    var constructors: set<string>
    var assemblers: map<string, Assembler>

    /** No two class names share an assembler. */
    ghost predicate Valid()
      reads this
    {
      forall x, y :: x in assemblers && y in assemblers && x != y ==> assemblers[x] != assemblers[y]
    }

    /** The stores start empty. */
    constructor (programName: string, fcAndDefinitionsByName: map<string, Nullable<D>>)
      ensures this.programName == programName && this.fcAndDefinitionsByName == fcAndDefinitionsByName
      ensures functions == map[] && constructors == {} && assemblers == map[]
      ensures Valid()
    {
      this.programName := programName;
      this.fcAndDefinitionsByName := fcAndDefinitionsByName;
      functions := map[];
      constructors := {};
      assemblers := map[];
    }

    /** Records `value` under `name`, replacing any earlier value. */
    method AddFunction(name: string, value: Nullable<V>)
      modifies this
      ensures functions == old(functions)[name := value]
      ensures constructors == old(constructors) && assemblers == old(assemblers)
    {
      functions := functions[name := value];
    }

    /** The value last recorded under `name`, or `null` when there is none. */
    function GetFunction(name: string): (r: Nullable<V>)
      reads this
      ensures r.NonNull? ==> name in functions && functions[name] == r
      ensures name in functions ==> r == functions[name]
    {
      if name in functions then functions[name] else Null
    }

    /** The assembler of class `name`, created and remembered on first use. */
    method GetAssembler(name: string) returns (a: Assembler)
      requires Valid()
      modifies this
      ensures Valid()
      ensures name in assemblers && assemblers[name] == a
      ensures name in old(assemblers) ==> a == old(assemblers)[name] && assemblers == old(assemblers)
      ensures name !in old(assemblers) ==> fresh(a) && assemblers == old(assemblers)[name := a]
      ensures functions == old(functions) && constructors == old(constructors)
    {
      if name in assemblers {
        a := assemblers[name];
      } else {
        a := new Assembler();
        assemblers := assemblers[name := a];
      }
    }

    /** The program name given at construction. */
    function GetProgramName(): (r: string)
      ensures r == programName
    {
      programName
    }

    /** Whether the constructor `name` has been recorded. */
    function HasConstructor(name: string): (r: bool)
      reads this
      ensures r <==> name in constructors
    {
      name in constructors
    }

    /** Records the constructor `name`; recording it again changes nothing. */
    method AddConstructor(name: string)
      modifies this
      ensures constructors == old(constructors) + {name}
      ensures functions == old(functions) && assemblers == old(assemblers)
    {
      constructors := constructors + {name};
    }

    /** The definition of `name`, or an exception when the table has no entry for it or
        maps it to `null`. */
    function GetFcAndDefinition(name: string): (r: Result<D, IdrisJvmException>)
      ensures r.Ok? <==> name in fcAndDefinitionsByName && fcAndDefinitionsByName[name].NonNull?
      ensures r.Ok? ==> fcAndDefinitionsByName[name] == NonNull(r.value)
      ensures r.Err? ==> r.error.message == UNABLE_TO_FIND_FUNCTION + name
    {
      var found := if name in fcAndDefinitionsByName then fcAndDefinitionsByName[name] else Null;
      match found
      case NonNull(d) => Ok(d)
      case Null => Err(IdrisJvmException(UNABLE_TO_FIND_FUNCTION + name))
    }
  }

  /** A new store knows no function, no constructor and no assembler, and keeps the program
      name it was given. */
  method NewStateIsEmpty<V, D>(programName: string, definitions: map<string, Nullable<D>>, name: string)
    returns (value: Nullable<V>, hasConstructor: bool, storedName: string)
    ensures value == Null && !hasConstructor && storedName == programName
  {
    var state := new AsmGlobalState<V, D>(programName, definitions);
    value := state.GetFunction(name);
    hasConstructor := state.HasConstructor(name);
    storedName := state.GetProgramName();
  }

  /** Of two values recorded under one name, the later is the one read back; recording a
      function leaves the constructors alone. */
  method LastWriteWins<V, D>(state: AsmGlobalState<V, D>, name: string, first: V, second: V, other: string)
    returns (r: Nullable<V>, hadConstructor: bool, hasConstructor: bool)
    modifies state
    ensures r == NonNull(second) && hasConstructor == hadConstructor
  {
    hadConstructor := state.HasConstructor(other);
    state.AddFunction(name, NonNull(first));
    state.AddFunction(name, NonNull(second));
    r := state.GetFunction(name);
    hasConstructor := state.HasConstructor(other);
  }

  /** Asking twice for the same class gives the same assembler; different classes get
      different assemblers. */
  method AssemblerPerClass<V, D>(state: AsmGlobalState<V, D>, x: string, y: string)
    returns (ax: Assembler, ay: Assembler, again: Assembler)
    requires state.Valid()
    modifies state
    ensures state.Valid()
    ensures again == ax && (x != y <==> ax != ay)
  {
    ax := state.GetAssembler(x);
    ay := state.GetAssembler(y);
    again := state.GetAssembler(x);
  }

  /** Recording a constructor twice is the same as recording it once, and it is known
      afterwards. */
  method AddConstructorTwice<V, D>(state: AsmGlobalState<V, D>, name: string) returns (known: bool)
    modifies state
    ensures state.constructors == old(state.constructors) + {name}
    ensures known
  {
    state.AddConstructor(name);
    state.AddConstructor(name);
    known := state.HasConstructor(name);
  }
}
