/**
 The agent unit: a fixed six-node pipeline (Ollama connectivity, the two
 prompt loaders, Ollama options, Ollama generation, response cleaning) run
 by the pipeline executor. The Ollama units are defined outside this
 model: their schemas, return names and entry points are parameters.
 */
module Agent {
  import opened Types
  import opened AliasAssignment
  import opened NodeArguments
  import opened Executor
  import opened MergeInputTypes
  import PromptLoader
  import CleanResponse

  /** The three Ollama unit classes the agent imports. */
  datatype OllamaUnits = OllamaUnits(connectivity: UnitClass, options: UnitClass, generate: UnitClass)

  /** The class names the agent's bindings refer to. */
  predicate ImportedNames(o: OllamaUnits)
  {
    && o.connectivity.name == "OllamaConnectivityV2"
    && o.options.name == "OllamaOptionsV2"
    && o.generate.name == "OllamaGenerateV2"
  }

  // ---------------------------------------------------------------------
  // get_default_options

  /** Both loops can read `value[1]`: every entry of either group has an
      options dict. */
  predicate DefaultsReadable(s: Schema)
  {
    HasOptions(GroupOf(s.required)) && HasOptions(GroupOf(s.optional))
  }

  /** The defaults of the required group, overridden by those of the
      optional group. */
  function DefaultOptions(s: Schema): map<string, Value>
  {
    GroupDefaults(GroupOf(s.required)) + GroupDefaults(GroupOf(s.optional))
  }

  /** A name has a default option exactly when either group declares one
      for it; the optional group's default wins. */
  lemma DefaultOptionsMeaning(s: Schema, k: string)
    ensures k in DefaultOptions(s) <==> HasDefault(GroupOf(s.required), k) || HasDefault(GroupOf(s.optional), k)
    ensures HasDefault(GroupOf(s.optional), k) ==>
      DefaultOptions(s)[k] == GroupOf(s.optional)[k].options.value["default"]
    ensures !HasDefault(GroupOf(s.optional), k) && HasDefault(GroupOf(s.required), k) ==>
      DefaultOptions(s)[k] == GroupOf(s.required)[k].options.value["default"]
  {
  }

  // ---------------------------------------------------------------------
  // INPUT_TYPES

  const LoaderHidden: seq<string> := ["model"]
  const GenerateHidden: seq<string> := ["system", "prompt"]

  /** A prompt loader's schema without its model input. */
  function LoaderInputs(): (l: Schema)
    ensures GroupOf(l.required) == map[]
    ensures GroupOf(l.optional).Keys == {"task", "positive_prompt", "negative_prompt"}
  {
    var l := Pruned(PromptLoader.InputTypes(), LoaderHidden);
    assert GroupOf(l.optional).Keys == {"task", "positive_prompt", "negative_prompt"} by {
      forall k ensures k in GroupOf(l.optional) <==> k in {"task", "positive_prompt", "negative_prompt"} {
      }
    }
    l
  }

  /** The schemas merged into the agent's own: both loaders (given their
      schema without the model), connectivity, generation without system and
      prompt, and the options when fine-tuning. */
  function InputListWith(loader: Schema, o: OllamaUnits, fineTune: bool): (r: seq<Schema>)
    ensures |r| == if fineTune then 5 else 4
  {
    [loader, loader, o.connectivity.schema, Pruned(o.generate.schema, GenerateHidden)]
    + (if fineTune then [o.options.schema] else [])
  }

  function InputList(o: OllamaUnits, fineTune: bool): seq<Schema>
  {
    InputListWith(LoaderInputs(), o, fineTune)
  }

  function AgentInputTypes(o: OllamaUnits, fineTune: bool): Schema
  {
    Merged(InputList(o, fineTune))
  }

  /** The required inputs of the merged list, whatever the loaders' schema. */
  lemma RequiredInputsWith(loader: Schema, o: OllamaUnits, fineTune: bool, k: string)
    ensures Merged(InputListWith(loader, o, fineTune)).required.Some?
    ensures k in Merged(InputListWith(loader, o, fineTune)).required.value <==>
      || k in GroupOf(loader.required)
      || k in GroupOf(o.connectivity.schema.required)
      || (k in GroupOf(o.generate.schema.required) && k !in GenerateHidden)
      || (fineTune && k in GroupOf(o.options.schema.required))
    ensures fineTune && k in GroupOf(o.options.schema.required) ==>
      Merged(InputListWith(loader, o, fineTune)).required.value[k] == GroupOf(o.options.schema.required)[k]
  {
    var inputs := InputListWith(loader, o, fineTune);
    MergedGroups(inputs, k);
    var gen := Pruned(o.generate.schema, GenerateHidden);
    assert inputs[0] == loader && inputs[1] == loader;
    assert inputs[2] == o.connectivity.schema && inputs[3] == gen;
    assert fineTune ==> inputs[4] == o.options.schema;
    if k in GroupOf(gen.required) {
      assert k in GroupOf(inputs[3].required);
    }
    if fineTune && k in GroupOf(o.options.schema.required) {
      assert k in GroupOf(Pick(inputs[4], Required));
    }
  }

  /** The optional inputs of the merged list, whatever the loaders' schema. */
  lemma OptionalInputsWith(loader: Schema, o: OllamaUnits, fineTune: bool, k: string)
    ensures Merged(InputListWith(loader, o, fineTune)).optional.Some?
    ensures k in Merged(InputListWith(loader, o, fineTune)).optional.value <==>
      || k in GroupOf(loader.optional)
      || k in GroupOf(o.connectivity.schema.optional)
      || (k in GroupOf(o.generate.schema.optional) && k !in GenerateHidden)
      || (fineTune && k in GroupOf(o.options.schema.optional))
    ensures fineTune && k in GroupOf(o.options.schema.optional) ==>
      Merged(InputListWith(loader, o, fineTune)).optional.value[k] == GroupOf(o.options.schema.optional)[k]
  {
    var inputs := InputListWith(loader, o, fineTune);
    MergedGroups(inputs, k);
    var gen := Pruned(o.generate.schema, GenerateHidden);
    assert inputs[0] == loader && inputs[1] == loader;
    assert inputs[2] == o.connectivity.schema && inputs[3] == gen;
    assert fineTune ==> inputs[4] == o.options.schema;
    if k in GroupOf(gen.optional) {
      assert k in GroupOf(inputs[3].optional);
    }
    if fineTune && k in GroupOf(o.options.schema.optional) {
      assert k in GroupOf(Pick(inputs[4], Optional));
    }
  }

  /** The agent's required inputs: those of connectivity, those of
      generation but system and prompt, and the options' when fine-tuning,
      which then override the others. */
  lemma AgentRequiredInputs(o: OllamaUnits, fineTune: bool, k: string)
    ensures AgentInputTypes(o, fineTune).required.Some?
    ensures k in AgentInputTypes(o, fineTune).required.value <==>
      || k in GroupOf(o.connectivity.schema.required)
      || (k in GroupOf(o.generate.schema.required) && k !in GenerateHidden)
      || (fineTune && k in GroupOf(o.options.schema.required))
    ensures fineTune && k in GroupOf(o.options.schema.required) ==>
      AgentInputTypes(o, fineTune).required.value[k] == GroupOf(o.options.schema.required)[k]
  {
    RequiredInputsWith(LoaderInputs(), o, fineTune, k);
  }

  /** The agent's optional inputs: the loaders' task and guideline texts
      (their model is hidden), those of connectivity, those of generation but
      system and prompt, and the options' when fine-tuning, which then
      override the others. */
  lemma AgentOptionalInputs(o: OllamaUnits, fineTune: bool, k: string)
    ensures AgentInputTypes(o, fineTune).optional.Some?
    ensures k in AgentInputTypes(o, fineTune).optional.value <==>
      || k in {"task", "positive_prompt", "negative_prompt"}
      || k in GroupOf(o.connectivity.schema.optional)
      || (k in GroupOf(o.generate.schema.optional) && k !in GenerateHidden)
      || (fineTune && k in GroupOf(o.options.schema.optional))
    ensures fineTune && k in GroupOf(o.options.schema.optional) ==>
      AgentInputTypes(o, fineTune).optional.value[k] == GroupOf(o.options.schema.optional)[k]
  {
    OptionalInputsWith(LoaderInputs(), o, fineTune, k);
  }

  /** The class-level fine-tune switch, shared by every agent. */
  class AgentClass {
    var fineTune: bool

    constructor ()
      ensures !fineTune
    {
      fineTune := false;
    }

    method SetFineTune(fineTune: bool)
      modifies this
      ensures this.fineTune == fineTune
    {
      this.fineTune := fineTune;
    }

    method IsFineTune() returns (f: bool)
      ensures f == fineTune
    {
      return fineTune;
    }

    /** `INPUT_TYPES`, as the source computes it. */
    method InputTypes(o: OllamaUnits) returns (s: Schema)
      ensures s == AgentInputTypes(o, fineTune)
    {
      var generateInputs := MultiNodeExecutor.RemoveInputs(o.generate.schema, GenerateHidden);
      var systemInputs := MultiNodeExecutor.RemoveInputs(PromptLoader.InputTypes(), LoaderHidden);
      var actionInputs := MultiNodeExecutor.RemoveInputs(PromptLoader.InputTypes(), LoaderHidden);
      assert systemInputs == actionInputs == LoaderInputs();
      var fine := IsFineTune();
      var inputs := [systemInputs, actionInputs, o.connectivity.schema, generateInputs];
      inputs := if fine then inputs + [o.options.schema] else inputs;
      assert inputs == InputList(o, fineTune);
      s := Merge(inputs);
    }
  }

  // ---------------------------------------------------------------------
  // run_agent

  /** The six unit classes of the pipeline, in the order of its
      configurations. */
  datatype PipelineUnits = PipelineUnits(
    connectivity: UnitClass, systemLoader: UnitClass, actionLoader: UnitClass,
    options: UnitClass, generate: UnitClass, clean: UnitClass)

  function AgentUnits(o: OllamaUnits): PipelineUnits
  {
    PipelineUnits(o.connectivity, PromptLoader.SystemPromptLoaderUnit(), PromptLoader.ActionPromptLoaderUnit(),
                  o.options, o.generate, CleanResponse.CleanResponseUnit())
  }

  const AgentAliases: seq<string> :=
    ["OllamaConnectivityV2", "SystemPromptLoader", "ActionPromptLoader",
     "OllamaOptionsV2", "OllamaGenerateV2", "CleanResponse"]

  /** The units carry the class names the bindings refer to. */
  predicate NamedAsBound(u: PipelineUnits)
  {
    [u.connectivity.name, u.systemLoader.name, u.actionLoader.name,
     u.options.name, u.generate.name, u.clean.name] == AgentAliases
  }

  lemma AgentUnitsNamed(o: OllamaUnits)
    requires ImportedNames(o)
    ensures NamedAsBound(AgentUnits(o))
  {
  }

  /** The options given at construction, or the options unit's defaults
      when none were given (reading them raises for an entry without an
      options dict). */
  function OllamaOptions(modelOptions: Option<map<string, Value>>, optionsUnit: UnitClass): Result<map<string, Value>>
  {
    if modelOptions.Some? then Ok(modelOptions.value)
    else if DefaultsReadable(optionsUnit.schema) then Ok(DefaultOptions(optionsUnit.schema))
    else Err(OptionsMissing(optionsUnit.name))
  }

  function Pair(a: string, b: string): Value
  {
    Tuple([Str(a), Str(b)])
  }

  /** The six node configurations of `run_agent`. */
  function AgentConfigs(u: PipelineUnits, ollamaOptions: map<string, Value>): (r: seq<NodeConfig>)
    ensures |r| == 6
  {
    [NodeConfig(u.connectivity, None, None, map[]),
     NodeConfig(u.systemLoader, None, Some(Direct([("model", Str("my custom model"))])), map[]),
     NodeConfig(u.actionLoader, None, Some(Direct([("model", Tuple([Str("my custom model 2")]))])), map[]),
     NodeConfig(u.options, None, None, ollamaOptions),
     NodeConfig(u.generate, None, Some(Many([
       [Str("SystemPromptLoader"), Str("system")],
       [Str("ActionPromptLoader"), Str("prompt")],
       [Str("OllamaConnectivityV2"), List([Pair("connection", "connectivity")])],
       [Str("OllamaOptionsV2"), Str("options")]])), map[]),
     NodeConfig(u.clean, None, Some(Many([
       [Str("OllamaGenerateV2"), List([Pair("result", "model_response")])]])), map[])]
  }

  /** No configuration brings an alias and the six classes are distinct, so
      each node is known by its class name. */
  lemma AgentAliasesAreClassNames(u: PipelineUnits, ollamaOptions: map<string, Value>)
    requires NamedAsBound(u)
    ensures Register(AgentConfigs(u, ollamaOptions)).Ok?
    ensures Register(AgentConfigs(u, ollamaOptions)).value.aliases == AgentAliases
  {
    var cfgs := AgentConfigs(u, ollamaOptions);
    assert forall i :: 0 <= i < |cfgs| ==> cfgs[i].node.name == AgentAliases[i];
    DistinctClassesGetBareNames(cfgs);
  }

  /** Every binding of the pipeline is a pair whose source is the alias of
      an earlier node, so no dependency is ever missing from the results. */
  lemma BindingsReferenceEarlierNodes(u: PipelineUnits, ollamaOptions: map<string, Value>, i: nat, b: Binding)
    requires i < 6
    requires b in Dependencies(AgentConfigs(u, ollamaOptions)[i].inputs)
    ensures |b| == 2 && b[0].Str?
    ensures exists j :: 0 <= j < i && b[0].s == AgentAliases[j]
  {
    if i == 4 {
      assert b[0].s == AgentAliases[1] || b[0].s == AgentAliases[2]
          || b[0].s == AgentAliases[0] || b[0].s == AgentAliases[3];
    } else {
      assert i == 5;
      assert b[0].s == AgentAliases[4];
    }
  }

  /** Without options given at construction, the options node is fixed to
      the defaults its schema declares. */
  lemma DefaultOptionsFixed(o: OllamaUnits)
    ensures DefaultsReadable(o.options.schema) ==>
      && OllamaOptions(None, o.options).Ok?
      && AgentConfigs(AgentUnits(o), OllamaOptions(None, o.options).value)[3].fixedKwargs
         == DefaultOptions(o.options.schema)
    ensures !DefaultsReadable(o.options.schema) ==> OllamaOptions(None, o.options) == Err(OptionsMissing(o.options.name))
  {
  }

  /** The alias table the executor builds for the pipeline. */
  function AgentTable(u: PipelineUnits, ollamaOptions: map<string, Value>): (t: AliasTable)
    requires NamedAsBound(u)
    ensures Register(AgentConfigs(u, ollamaOptions)) == Ok(t)
    ensures t.aliases == AgentAliases
  {
    AgentAliasesAreClassNames(u, ollamaOptions);
    Register(AgentConfigs(u, ollamaOptions)).value
  }

  /** The executor's configurations for the pipeline, once aliased. */
  function StoredAgentConfigs(u: PipelineUnits, ollamaOptions: map<string, Value>): (r: seq<NodeConfig>)
    requires NamedAsBound(u)
    ensures r == StoredConfigs(AgentConfigs(u, ollamaOptions), AgentAliases)
    ensures Registered(r, AgentTable(u, ollamaOptions).toClass)
    ensures |r| == 6 && forall i :: 0 <= i < 6 ==> r[i].alias == Some(AgentAliases[i])
  {
    var cfgs := AgentConfigs(u, ollamaOptions);
    var t := AgentTable(u, ollamaOptions);
    StoredRegistered(cfgs);
    StoredConfigs(cfgs, AgentAliases)
  }

  /** The results of the pipeline run for the given global kwargs: on
      success, one entry per node, under its class name. */
  function AgentResults(u: PipelineUnits, ollamaOptions: map<string, Value>, globals: Kwargs,
                        run: (UnitClass, Kwargs) -> Result<seq<Value>>): (r: Result<map<string, seq<Value>>>)
    requires NamedAsBound(u)
    ensures r.Ok? ==> forall i :: 0 <= i < 6 ==> AgentAliases[i] in r.value
  {
    var stored := StoredAgentConfigs(u, ollamaOptions);
    var toClass := AgentTable(u, ollamaOptions).toClass;
    var r := RunFrom(map[], stored, globals, toClass, run);
    if r.Ok? then
      RunRecords(map[], stored, globals, toClass, run);
      assert forall i :: 0 <= i < 6 ==> AgentAliases[i] in AliasSet(stored) by {
        forall i | 0 <= i < 6 ensures AgentAliases[i] in AliasSet(stored) {
          assert stored[i].alias.value == AgentAliases[i];
        }
      }
      r
    else r
  }

  /** `run_agent`: the outputs of the cleaning node and of both prompt
      loaders, or the first failure of the pipeline. */
  function AgentOutcome(u: PipelineUnits, ollamaOptions: map<string, Value>, globals: Kwargs,
                        run: (UnitClass, Kwargs) -> Result<seq<Value>>): Result<(seq<Value>, seq<Value>, seq<Value>)>
    requires NamedAsBound(u)
  {
    match AgentResults(u, ollamaOptions, globals, run)
    case Err(e) => Err(e)
    case Ok(res) => Ok(PickOutputs(res))
  }

  /** The triple `run_agent` returns, read from the results by alias:
      CleanResponse, SystemPromptLoader, ActionPromptLoader. */
  function PickOutputs(res: map<string, seq<Value>>): (seq<Value>, seq<Value>, seq<Value>)
    requires forall i :: 0 <= i < 6 ==> AgentAliases[i] in res
  {
    (res[AgentAliases[5]], res[AgentAliases[1]], res[AgentAliases[2]])
  }

  /** An agent; `modelOptions` is what it was constructed with. */
  class BaseAgent {
    var modelOptions: Option<map<string, Value>>

    constructor (options: Option<map<string, Value>>)
      ensures modelOptions == options
    {
      modelOptions := options;
    }

    /** One loop of `get_default_options`: every entry of g with a default
        writes it into the dictionary; an entry without options raises. */
    static method AddDefaults(defaults: map<string, Value>, g: Group, unitName: string)
      returns (r: Result<map<string, Value>>)
      ensures r == if HasOptions(g) then Ok(defaults + GroupDefaults(g)) else Err(OptionsMissing(unitName))
    {
      var acc := defaults;
      var pending := g.Keys;
      ghost var done: set<string> := {};
      while pending != {}
        invariant pending <= g.Keys
        invariant forall k :: k in g ==> (k in done <==> k !in pending)
        invariant forall k :: k in g && k in done ==> g[k].options.Some?
        invariant acc == defaults + Restrict(GroupDefaults(g), done)
        decreases |pending|
      {
        var key :| key in pending;
        var value := g[key];
        if value.options.None? {
          return Err(OptionsMissing(unitName));
        }
        RestrictStep(defaults, GroupDefaults(g), done, key);
        if "default" in value.options.value {
          acc := acc[key := value.options.value["default"]];
        }
        pending := pending - {key};
        done := done + {key};
      }
      assert Restrict(GroupDefaults(g), done) == GroupDefaults(g);
      return Ok(acc);
    }

    /** `get_default_options`: the required group's defaults, then the
        optional group's. */
    method GetDefaultOptions(node: UnitClass) returns (r: Result<map<string, Value>>)
      ensures r == if DefaultsReadable(node.schema) then Ok(DefaultOptions(node.schema))
                   else Err(OptionsMissing(node.name))
    {
      var defaults: map<string, Value> := map[];
      if node.schema.required.Some? {
        var added := AddDefaults(defaults, node.schema.required.value, node.name);
        if added.Err? {
          return added;
        }
        defaults := added.value;
      }
      assert defaults == GroupDefaults(GroupOf(node.schema.required)) by {
        assert map[] + GroupDefaults(GroupOf(node.schema.required)) == GroupDefaults(GroupOf(node.schema.required));
      }
      if node.schema.optional.Some? {
        var added := AddDefaults(defaults, node.schema.optional.value, node.name);
        if added.Err? {
          return added;
        }
        defaults := added.value;
      } else {
        assert defaults + GroupDefaults(GroupOf(node.schema.optional)) == defaults;
      }
      return Ok(defaults);
    }

    /** `run_agent`: builds the six configurations, runs them and picks the
        three outputs. Registering the configurations cannot fail. */
    method RunAgent(o: OllamaUnits, globals: Kwargs, run: (UnitClass, Kwargs) -> Result<seq<Value>>)
      returns (r: Result<(seq<Value>, seq<Value>, seq<Value>)>)
      requires ImportedNames(o)
      ensures r == match OllamaOptions(modelOptions, o.options)
                   case Err(e) => Err(e)
                   case Ok(ollamaOptions) => AgentOutcome(AgentUnits(o), ollamaOptions, globals, run)
    {
      var units := AgentUnits(o);
      AgentUnitsNamed(o);
      var ollamaOptions := ChooseOptions(o.options);
      if ollamaOptions.Err? {
        return Err(ollamaOptions.error);
      }
      r := RunPipeline(units, ollamaOptions.value, globals, run);
    }

    /** The first line of `run_agent`: the options given at construction, or
        else the defaults of the options unit. */
    method ChooseOptions(optionsUnit: UnitClass) returns (r: Result<map<string, Value>>)
      ensures r == OllamaOptions(modelOptions, optionsUnit)
    {
      if modelOptions.None? {
        r := GetDefaultOptions(optionsUnit);
      } else {
        r := Ok(modelOptions.value);
      }
    }

    /** The body of `run_agent` once the options are known. */
    static method RunPipeline(units: PipelineUnits, ollamaOptions: map<string, Value>, globals: Kwargs,
                              run: (UnitClass, Kwargs) -> Result<seq<Value>>)
      returns (r: Result<(seq<Value>, seq<Value>, seq<Value>)>)
      requires NamedAsBound(units)
      ensures r == AgentOutcome(units, ollamaOptions, globals, run)
    {
      var nodeConfigs := AgentConfigs(units, ollamaOptions);
      ghost var table := AgentTable(units, ollamaOptions);
      var executor := MultiNodeExecutor.New(nodeConfigs);
      var e := executor.value;
      assert e.nodeConfigs == StoredAgentConfigs(units, ollamaOptions);
      assert e.aliasToClass == table.toClass;
      var results := e.ExecuteNodes(globals, run);
      assert results == AgentResults(units, ollamaOptions, globals, run);
      if results.Err? {
        return Err(results.error);
      }
      r := Ok(PickOutputs(results.value));
    }
  }
}
