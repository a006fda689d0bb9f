/**
 The data model shared by the pipeline executor and its plugin units:
 dynamic values, parameter schemas (what a unit's INPUT_TYPES returns),
 unit classes, node configurations and the errors the executor raises.
 */
module Types {

  datatype Option<+T> = None | Some(value: T)

  /** The dynamic values that flow between units. Tuples and lists are kept
      apart because wrapping and coercion branch on "is it a tuple". */
  datatype Value =
    | Str(s: string)
    | Int(i: int)
    | Bool(b: bool)
    | NoneValue
    | Tuple(items: seq<Value>)
    | List(items: seq<Value>)

  /** Python truthiness of a value. */
  predicate Truthy(v: Value)
  {
    match v
    case Str(s) => s != ""
    case Int(i) => i != 0
    case Bool(b) => b
    case NoneValue => false
    case Tuple(items) => items != []
    case List(items) => items != []
  }

  /** Direct injection carries every value as a tuple: a non-tuple value is
      wrapped into a 1-tuple, a tuple is kept as it is. */
  function Wrap(v: Value): Value
  {
    if v.Tuple? then v else Tuple([v])
  }

  /** The declared value-kind of a parameter: a kind name such as "STRING",
      or a list/tuple of choices (a combo box in the host). */
  datatype Kind = Named(name: string) | Choices(options: seq<string>)

  /** One schema entry: the pair (kind, options), where options may hold
      "default"; None is an entry given as the one-element tuple (kind,),
      which has no options dict, so reading its second element raises. */
  datatype Param = Param(kind: Kind, options: Option<map<string, Value>>)

  type Group = map<string, Param>

  /** What INPUT_TYPES returns: either group may be absent. */
  datatype Schema = Schema(required: Option<Group>, optional: Option<Group>)

  /** A unit (node class): its class name, its schema and its RETURN_NAMES. */
  datatype UnitClass = UnitClass(name: string, schema: Schema, returnNames: Option<seq<string>>)

  /** A dependency binding is a tuple; its parts are kept as values so that
      the arity check and the shape checks of the source can be modelled. */
  type Binding = seq<Value>

  /** The 'inputs' entry of a node configuration: a dict (direct injection,
      in insertion order), one tuple (a single binding) or a list of bindings. */
  datatype Inputs =
    | Direct(entries: seq<(string, Value)>)
    | Single(binding: Binding)
    | Many(bindings: seq<Binding>)

  /** One node configuration: 'node', optional 'alias', optional 'inputs'
      and 'fixed_kwargs' (an absent 'fixed_kwargs' is the empty map). */
  datatype NodeConfig = NodeConfig(
    node: UnitClass,
    alias: Option<string>,
    inputs: Option<Inputs>,
    fixedKwargs: map<string, Value>)

  /** Everything the core raises. */
  datatype Error =
    | DuplicateAlias(alias: string)
    | InvalidParameter(unitName: string, param: string)
    | MalformedBinding(unitName: string)
    | DependencyNotFound(source: Value)
    | NoReturnNames(sourceAlias: string)
    | OutputNotFound(output: Value, sourceAlias: string)
    | InvalidInput(unitName: string, input: Value)
    | InvalidSpec(sourceAlias: string)
    | UnpackFailed(sourceAlias: string)
    | OutputIndexOutOfRange(sourceAlias: string)
    | MissingRequired(alias: string, missing: set<string>)
    | EmptyTupleArgument(alias: string)
    | NotAString(key: string)
    | OptionsMissing(unitName: string)
    | NodeRaised(unitName: string)

  datatype Result<+T> = Ok(value: T) | Err(error: Error)

  /** A group that may be absent, read as Python's `d.get(group, {})`. */
  function GroupOf(g: Option<Group>): Group
  {
    if g.Some? then g.value else map[]
  }

  /** Every entry of g has an options dict, so `v[1]` can be read. */
  predicate HasOptions(g: Group)
  {
    forall k :: k in g ==> g[k].options.Some?
  }

  /** g declares k with a "default" in its options. */
  predicate HasDefault(g: Group, k: string)
  {
    k in g && g[k].options.Some? && "default" in g[k].options.value
  }

  /** The names of a group whose options declare a "default", with it. */
  function GroupDefaults(g: Group): map<string, Value>
  {
    map k | k in g && HasDefault(g, k) :: g[k].options.value["default"]
  }

  /** All names declared by a schema, required or optional. */
  function Declared(s: Schema): set<string>
  {
    GroupOf(s.required).Keys + GroupOf(s.optional).Keys
  }

  /** Sequences without repetitions. */
  predicate Distinct<T(==)>(s: seq<T>)
  {
    forall i, j :: 0 <= i < j < |s| ==> s[i] != s[j]
  }
}
