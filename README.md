# Black Night Tales nodes: pipeline executor, agent, prompt loader, response cleaner

This project models the core of a ComfyUI plugin whose "agent" node runs a
fixed pipeline of other nodes.

- **Pipeline executor** (`MultiNodeExecutor`):
  - gives every node configuration a unique alias, using a per-class counter and a collision loop;
  - builds each node's keyword arguments with a fixed precedence: optional-schema defaults, then global kwargs for declared names, then direct injection or dependency bindings on earlier results, then `fixed_kwargs`;
  - checks required parameters and unwraps 1-tuples for parameters whose declared kind is not a list of choices;
  - calls the node and records its output under its alias.
- **Schema merge** (`merge_input_types`): the last writer wins, group by group.
- **Agent** (`BaseAgent`):
  - the class-level fine-tune switch;
  - the composed `INPUT_TYPES`;
  - `get_default_options`;
  - the six-node pipeline of `run_agent`, which returns the outputs of the cleaner and of both prompt loaders.
- **Prompt loader** (`PromptLoader`): `[key]` placeholder substitution in two templates. The templates are given as parameters; the loader does not read them from files here.
- **Response cleaner** (`CleanResponse`): removes `<think>…</think>` and then `<thinking>…</thinking>` blocks, using a left-to-right shortest-match scan, and then strips whitespace.

Layout:

- `types.dfy` holds values, schemas, unit classes, node configurations and errors.
- `text.dfy` holds substring matching.
- `decimal.dfy` formats the counters in generated aliases.
- `alias_assignment.dfy` specifies the constructor's alias loop.
- `node_arguments.dfy` specifies kwargs preparation, dependency binding and the tuple adjustment.
- `executor.dfy` holds the `MultiNodeExecutor` class. Its methods are proved equal to those specifications. It also holds `remove_inputs` and whole runs.
- `merge_input_types.dfy`, `prompt_loader.dfy`, `clean_response.dfy` and `agent.dfy` hold the companion modules.

Units are records: a class name, a schema of `required`/`optional` groups (name ↦ kind and options), and optional `RETURN_NAMES`. A node's entry point is the parameter `run: (UnitClass, kwargs) -> Result<outputs>`. It either returns the output tuple or raises an exception, which is modelled as an `Err`. Runs are proved for every such function. A function gives one answer per class and kwargs, so nodes whose answer changes from call to call are not covered. Python exceptions are `Err` values of one `Error` datatype.

A schema entry is a kind with an optional options dict. Some schemas hold a one-element entry such as `("IMAGE",)`, which has no options dict. Reading `v[1]` from such an entry raises `IndexError`. The model makes that an `OptionsMissing` error in two places:

- when the executor collects optional defaults;
- when `get_default_options` reads either group.

## Model

| member | source | states |
|---|---|---|
| AliasAssignment.CandidateInjective | nodes/bcknt/MultiNodeExecutor.py:32-35 | two counter values at or above 1 that propose the same alias are equal, so `C` and `C_n` never coincide |
| AliasAssignment.FirstFree | nodes/bcknt/MultiNodeExecutor.py:33-35 | the collision loop terminates. It returns the least counter at or above its start whose alias is not taken; every counter it skipped was taken |
| AliasAssignment.Register | nodes/bcknt/MultiNodeExecutor.py:21-40 | on success, exactly one alias per configuration |
| AliasAssignment.StoredConfigs | nodes/bcknt/MultiNodeExecutor.py:38-40 | each stored configuration is the original in the same position, with only its alias replaced |
| AliasAssignment.RegisterConsistent | nodes/bcknt/MultiNodeExecutor.py:21-42 | after the loop: one alias per configuration, in order, pairwise distinct; `alias_to_class` has exactly those keys and maps each to its configuration's class; an explicit alias is kept as given |
| AliasAssignment.RegisterPrefixOk | nodes/bcknt/MultiNodeExecutor.py:21-40 | if the whole list registers, every prefix registers and gets the prefix of the aliases |
| AliasAssignment.RegisterErrSticks | nodes/bcknt/MultiNodeExecutor.py:25-27 | the first failure is the constructor's failure |
| AliasAssignment.RegisterFailsIff | nodes/bcknt/MultiNodeExecutor.py:25-27 | registration fails iff some non-empty explicit alias is already registered, whether earlier given or generated. It then raises the duplicate-alias error for that alias |
| AliasAssignment.RepeatedExplicitAliasFails | nodes/bcknt/MultiNodeExecutor.py:25-27 | the same non-empty explicit alias given twice makes registration fail |
| AliasAssignment.CounterMonotone | nodes/bcknt/MultiNodeExecutor.py:31-34 | a class's counter never decreases along the configurations |
| AliasAssignment.AutoAliasChoice | nodes/bcknt/MultiNodeExecutor.py:29-36 | a configuration without an alias raises its class counter strictly. It gets the alias of the new counter value, which was free, and every value skipped was taken |
| AliasAssignment.FirstAutoGetsClassName | nodes/bcknt/MultiNodeExecutor.py:30-32 | the first alias-less configuration of a class whose name is still free gets the bare class name |
| AliasAssignment.CounterAbsent | nodes/bcknt/MultiNodeExecutor.py:18-31 | a class no alias-less configuration belongs to has no counter entry |
| AliasAssignment.LaterAutoSuffixIncreases | nodes/bcknt/MultiNodeExecutor.py:31-35 | of two alias-less configurations of one class, the later gets `C_n` with n greater than the earlier one's counter |
| AliasAssignment.DistinctClassesGetBareNames | nodes/bcknt/MultiNodeExecutor.py:21-36 | configurations of pairwise distinct classes and without aliases register, each under its bare class name |
| Decimal.NatToString | nodes/bcknt/MultiNodeExecutor.py:32 | the counter in `C_n` is a non-empty string of decimal digits |
| Decimal.ParseFormat | nodes/bcknt/MultiNodeExecutor.py:32 | reading back the digits of a counter gives the counter |
| Decimal.FormatInjective | nodes/bcknt/MultiNodeExecutor.py:32-35 | distinct counters give distinct suffixes |
| Executor.Pruned | nodes/bcknt/MultiNodeExecutor.py:55-61 | no removed name stays in either group; other entries are unchanged; a missing group is not created |
| Executor.MultiNodeExecutor.RemoveInputs | nodes/bcknt/MultiNodeExecutor.py:46-61 | the two loops over the names compute the pruned schema |
| Executor.MultiNodeExecutor.New | nodes/bcknt/MultiNodeExecutor.py:4-44 | the constructor's loop succeeds iff registration does, with its error otherwise. It stores the aliased configurations and the alias table, with empty results and instances |
| Executor.MultiNodeExecutor.Init | nodes/bcknt/MultiNodeExecutor.py:42-44 | the field initialisation `New` finishes with: the given configurations and alias table, with empty results and instances |
| Executor.MultiNodeExecutor.NextAlias | nodes/bcknt/MultiNodeExecutor.py:30-35 | the counter-and-collision loop sets the class counter to the first free value and returns its alias |
| Executor.StoredRegistered | nodes/bcknt/MultiNodeExecutor.py:21-42 | the stored configurations carry pairwise distinct aliases, each mapped to its own class |
| NodeArguments.Precedence | nodes/bcknt/MultiNodeExecutor.py:89-119 | on success, every optional entry has an options dict, and the prepared kwargs are the optional defaults, overridden by globals for declared names, then by the resolved inputs (declared names only), then by `fixed_kwargs` |
| NodeArguments.ArgumentSource | nodes/bcknt/MultiNodeExecutor.py:89-119 | per name: present iff fixed, resolved, declared and global, or defaulted. The value comes from the first of fixed > resolved > global > default. An undeclared name is present only through `fixed_kwargs` |
| Executor.MultiNodeExecutor.DefaultsAndGlobals | nodes/bcknt/MultiNodeExecutor.py:89-99 | the two loops compute the optional defaults overridden by the globals for declared names. An optional entry without an options dict raises |
| Executor.MultiNodeExecutor.ReadDefaults | nodes/bcknt/MultiNodeExecutor.py:90-94 | the comprehension yields exactly the declared defaults of the optional group. It raises if an entry has no options dict |
| Executor.MultiNodeExecutor.AddGlobals | nodes/bcknt/MultiNodeExecutor.py:96-99 | the loop overrides the kwargs with the globals for declared names and keeps every other name |
| NodeArguments.MissingOptionsFail | nodes/bcknt/MultiNodeExecutor.py:90-94 | preparation succeeds only when every optional entry has an options dict. Without one, it raises for that unit before any binding |
| Executor.MultiNodeExecutor.InjectDirect | nodes/bcknt/MultiNodeExecutor.py:103-111 | the injection loop computes the direct-injection function |
| NodeArguments.InjectFailsIff | nodes/bcknt/MultiNodeExecutor.py:103-111 | injection fails iff some entry names an undeclared parameter, reporting the first such entry |
| NodeArguments.InjectWrites | nodes/bcknt/MultiNodeExecutor.py:105-109 | injection writes each entry's value, wrapped into a 1-tuple unless already a tuple, and keeps every other name |
| NodeArguments.CoerceAfterWrap | nodes/bcknt/MultiNodeExecutor.py:106-107 | an injected scalar reaches a node as the scalar for a named kind and as a 1-tuple for a list kind |
| NodeArguments.IndexOf | nodes/bcknt/MultiNodeExecutor.py:155 | the first position of a name in `RETURN_NAMES` |
| Executor.MultiNodeExecutor.ProcessDependencies | nodes/bcknt/MultiNodeExecutor.py:123-174 | the binding loop computes binding all dependencies in order, with the first failure aborting |
| NodeArguments.ByNameBinding | nodes/bcknt/MultiNodeExecutor.py:133-161 | a string binding fails for a missing source, for missing `RETURN_NAMES`, for an unknown output, or for an undeclared target. Otherwise it writes `results[src][first index of name]` under that name |
| NodeArguments.RenamingBinding | nodes/bcknt/MultiNodeExecutor.py:162-168 | a list binding `(out, in)` writes the source's output `out` under parameter `in` |
| NodeArguments.RenamesFailIff | nodes/bcknt/MultiNodeExecutor.py:162-172 | a list of pairs fails iff some pair fails, and it reports the first failing pair's error. A pair fails if it cannot be unpacked into two parts, if its output name is not a string in `RETURN_NAMES`, if its input name is not declared, or if the output's index is past the recorded result |
| NodeArguments.RenamesWrite | nodes/bcknt/MultiNodeExecutor.py:164-168 | on success every pair is valid. A name is bound iff it was already present or some pair targets it. A name no pair targets keeps its value. A targeted name holds the output read by the last pair that targets it, so later pairs win |
| NodeArguments.RenamesKeys | nodes/bcknt/MultiNodeExecutor.py:164-168 | the keys after a list of pairs: those present before plus the pairs' targets. Untargeted names are untouched |
| NodeArguments.RenamesLastWins | nodes/bcknt/MultiNodeExecutor.py:164-168 | the last pair targeting a name decides its value |
| NodeArguments.MalformedBindingsFail | nodes/bcknt/MultiNodeExecutor.py:133-135 | a binding without exactly two parts fails; so does a spec that is neither a string nor a list (line 173-174) |
| NodeArguments.BindAllFromResults | nodes/bcknt/MultiNodeExecutor.py:150-168 | every name that binding writes is declared, and its value is an output recorded in `results` |
| NodeArguments.BindOutputFromResults | nodes/bcknt/MultiNodeExecutor.py:154-157 | the same for one output |
| NodeArguments.BindRenamesFromResults | nodes/bcknt/MultiNodeExecutor.py:164-168 | the same for a list of renaming pairs |
| NodeArguments.ResolveOnlyWrites | nodes/bcknt/MultiNodeExecutor.py:101-115 | resolving inputs never reads the kwargs it starts from; it only writes declared names |
| NodeArguments.InjectOnlyWrites | nodes/bcknt/MultiNodeExecutor.py:105-111 | the same for direct injection |
| NodeArguments.BindOutputOnlyWrites | nodes/bcknt/MultiNodeExecutor.py:154-159 | the same for one output binding |
| NodeArguments.BindRenamesOnlyWrites | nodes/bcknt/MultiNodeExecutor.py:164-172 | the same for a list of renaming pairs |
| NodeArguments.BindOneOnlyWrites | nodes/bcknt/MultiNodeExecutor.py:133-174 | the same for one dependency |
| NodeArguments.BindAllOnlyWrites | nodes/bcknt/MultiNodeExecutor.py:133-174 | the same for all dependencies |
| Executor.MultiNodeExecutor.PrepareNodeKwargs | nodes/bcknt/MultiNodeExecutor.py:76-121 | computes the prepared kwargs (defaults, globals, inputs, fixed) |
| NodeArguments.AdjustMeaning | nodes/bcknt/MultiNodeExecutor.py:201-218 | the check fails iff a required name is missing, reporting the whole missing set. On success the keys are unchanged; a tuple for a declared non-list parameter becomes its first element; every other value passes through |
| Executor.AdjustByParts | nodes/bcknt/MultiNodeExecutor.py:206-218 | with nothing missing and every tuple non-empty, adjusting is coercing every entry |
| Executor.EmptyTupleFails | nodes/bcknt/MultiNodeExecutor.py:213-214 | an empty tuple for a non-list parameter makes the call fail (`value[0]` raises) |
| Executor.MultiNodeExecutor.AdjustKwargs | nodes/bcknt/MultiNodeExecutor.py:201-218 | the check and the adjustment loop compute the adjustment |
| Executor.MultiNodeExecutor.ExecuteNode | nodes/bcknt/MultiNodeExecutor.py:176-221 | an instance is recorded for a new alias before the check. The node is called with the adjusted kwargs, and what it returns or raises is the outcome. If the check fails, its error is returned instead |
| Executor.MultiNodeExecutor.ExecuteNodes | nodes/bcknt/MultiNodeExecutor.py:223-240 | resets results and instances and runs the configurations in order. On success it returns the results: one entry per alias, and one instance per alias of that alias's class. On failure the results hold exactly the outputs of the nodes before the failing one, and the error is that node's own error, from preparation, the check or the node itself. The instances are then those of the earlier nodes, plus the failing node's when preparation succeeded (the instance is made before the check). On every path each instance is of its alias's class |
| Executor.MultiNodeExecutor.RunConfig | nodes/bcknt/MultiNodeExecutor.py:236-237 | one loop iteration before recording: the outcome is that configuration's prepare-check-call outcome. An instance is added for a new alias exactly when preparation succeeded |
| Executor.PrefixFails | nodes/bcknt/MultiNodeExecutor.py:233-238 | if the nodes before i succeed and node i fails, the whole run fails with node i's error |
| Executor.StopsAt | nodes/bcknt/MultiNodeExecutor.py:233-238 | after node i fails, the run's error is node i's. The results are those of the earlier nodes, and the instances are the earlier nodes' plus node i's when its preparation succeeded |
| Executor.PrefixStep | nodes/bcknt/MultiNodeExecutor.py:233-238 | after i nodes, the recorded results are those of running the first i configurations |
| Executor.ExecuteTwice | nodes/bcknt/MultiNodeExecutor.py:230-231 | because the fields are reset first, running the same executor twice with the same entry points gives the same results |
| Executor.RunSplit | nodes/bcknt/MultiNodeExecutor.py:233-238 | running a concatenation is running the first part and then the second from its results |
| Executor.RunRecords | nodes/bcknt/MultiNodeExecutor.py:233-240 | a successful run adds exactly one result per alias and keeps the results of aliases it does not run |
| Executor.RunStep | nodes/bcknt/MultiNodeExecutor.py:233-238 | one loop iteration: prepare, execute and record one node |
| Executor.EachNodeSeesEarlierResults | nodes/bcknt/MultiNodeExecutor.py:138-139 | in a successful run, node i is executed with exactly the results of the nodes before it, so bindings reach only earlier nodes; its recorded output is not overwritten later |
| Executor.TwoNodePipeline | nodes/bcknt/MultiNodeExecutor.py:152-157 | a by-name binding from P's output `out` passes P's value to Q's parameter `out`. Q is called with it and Q's outcome is the run's |
| MergeInputTypes.Merged | nodes/utils/merge_input_types.py:5-16 | a one-element list gives that element unchanged; any other length gives exactly both groups; the empty list gives two empty groups |
| MergeInputTypes.Merge | nodes/utils/merge_input_types.py:1-16 | the update loop computes the merge |
| MergeInputTypes.LastHolder | nodes/utils/merge_input_types.py:10-14 | the last input whose group holds a name |
| MergeInputTypes.CollectLastWriterWins | nodes/utils/merge_input_types.py:10-14 | a name is in a merged group iff some input's group has it. Its value comes from the last such input; a missing group contributes nothing |
| MergeInputTypes.MergedGroups | nodes/utils/merge_input_types.py:8-14 | the same for `required` and for `optional`, each independently |
| Agent.DefaultOptionsMeaning | nodes/bcknt/Agent.py:94-106 | a name has a default option iff either group declares a default for it; the optional default wins over the required one |
| Agent.BaseAgent.AddDefaults | nodes/bcknt/Agent.py:99-105 | one loop adds exactly the defaults of a group over the ones found so far. It raises if an entry of the group has no options dict |
| Agent.BaseAgent.GetDefaultOptions | nodes/bcknt/Agent.py:94-106 | computes the default options of a unit; missing groups are tolerated, and an entry without an options dict raises |
| Agent.AgentClass.constructor | nodes/bcknt/Agent.py:18 | the fine-tune switch starts off |
| Agent.AgentClass.SetFineTune | nodes/bcknt/Agent.py:24-26 | sets the switch |
| Agent.AgentClass.IsFineTune | nodes/bcknt/Agent.py:28-30 | returns the switch as last set |
| Agent.LoaderInputs | nodes/bcknt/Agent.py:43-44 | a prompt loader without `model`: no required inputs; optional `task`, `positive_prompt`, `negative_prompt` |
| Agent.AgentClass.InputTypes | nodes/bcknt/Agent.py:34-55 | `INPUT_TYPES` is the merge of both pruned loaders, connectivity, generate without `system`/`prompt`, and options iff the switch is on |
| Agent.RequiredInputsWith | nodes/bcknt/Agent.py:42-54 | merged required names: from the loaders, connectivity, generate except `system`/`prompt`, and options only when fine-tuning, whose entries then win |
| Agent.OptionalInputsWith | nodes/bcknt/Agent.py:42-54 | the same for optional names |
| Agent.AgentRequiredInputs | nodes/bcknt/Agent.py:35-55 | the agent's required inputs: connectivity's, generate's except `system`/`prompt`, and options' when fine-tuning |
| Agent.AgentOptionalInputs | nodes/bcknt/Agent.py:35-55 | the agent's optional inputs: `task`, `positive_prompt`, `negative_prompt`, connectivity's, generate's except `system`/`prompt`, and options' when fine-tuning |
| Agent.BaseAgent.constructor | nodes/bcknt/Agent.py:20-21 | keeps the options it is given |
| Agent.AgentUnitsNamed | nodes/bcknt/Agent.py:1-10 | the imported units carry the class names the bindings use |
| Agent.AgentAliasesAreClassNames | nodes/bcknt/Agent.py:66-88 | no configuration brings an alias and the six classes are distinct, so the executor registers them and each alias is its bare class name |
| Agent.BindingsReferenceEarlierNodes | nodes/bcknt/Agent.py:71-85 | every binding is a pair whose source is the alias of an earlier node |
| Agent.DefaultOptionsFixed | nodes/bcknt/Agent.py:64-70 | without options given at construction, the options node is fixed to the defaults of the options schema. If an entry of that schema has no options dict, `run_agent` raises before the pipeline runs |
| Agent.StoredAgentConfigs | nodes/bcknt/Agent.py:88 | the executor stores the six configurations under their class names, pairwise distinct |
| Agent.AgentResults | nodes/bcknt/Agent.py:88-91 | a successful run has a result for each of the six aliases, so the lookups at line 91 succeed |
| Agent.BaseAgent.RunAgent | nodes/bcknt/Agent.py:62-91 | uses the given options, or the options unit's defaults (raising if they cannot be read). It runs the six-node pipeline and returns the cleaner's, the system loader's and the action loader's outputs, or the pipeline's first failure |
| Agent.BaseAgent.ChooseOptions | nodes/bcknt/Agent.py:64 | the options given at construction, or else the defaults of the options unit, raising if those cannot be read |
| Agent.BaseAgent.RunPipeline | nodes/bcknt/Agent.py:66-91 | the pipeline part of `run_agent`, once the options are known |
| PromptLoader.InputTypes | nodes/bcknt/PromptLoader.py:11-38 | an empty required group and four optional string parameters, `task`, `model`, `positive_prompt` and `negative_prompt`, each defaulting to `""` |
| PromptLoader.Placeholder | nodes/bcknt/PromptLoader.py:86 | `[key]` starts with a bracket and is two characters longer than the key |
| PromptLoader.ReplaceAbsent | nodes/bcknt/PromptLoader.py:86 | replacing a pattern that does not occur changes nothing |
| PromptLoader.ReplaceClearsBrackets | nodes/bcknt/PromptLoader.py:86 | if every `[` of the text opens the pattern and the replacement has no `[`, no `[` is left |
| PromptLoader.ReplacePrompt | nodes/bcknt/PromptLoader.py:70-90 | the loop computes the substitution of the arguments, in order |
| PromptLoader.SubstituteFailsIff | nodes/bcknt/PromptLoader.py:84-88 | substitution fails iff some argument is truthy and not a string, as `str.replace` raises. The error names the first such key and does not depend on the text |
| PromptLoader.NoPlaceholderUnchanged | nodes/bcknt/PromptLoader.py:84-90 | text without any `[key]` of the arguments comes back unchanged |
| PromptLoader.StringBranchesCoincide | nodes/bcknt/PromptLoader.py:85-88 | for string values, both branches of the loop agree with plain replacement by the value, the empty value included |
| PromptLoader.SinglePlaceholderCleared | nodes/bcknt/PromptLoader.py:84-88 | with one key whose value has no `[`, and text whose every `[` opens `[key]`, no `[key]` is left |
| PromptLoader.ErasedPlaceholderCanReappear | nodes/bcknt/PromptLoader.py:86-88 | erasing `[task]` from `[[task]task]` leaves `[task]`: one replacement pass does not remove every placeholder |
| PromptLoader.PromptLoader.constructor | nodes/bcknt/PromptLoader.py:4-7 | keeps the path, with empty prompt and system |
| PromptLoader.PromptLoader.Run | nodes/bcknt/PromptLoader.py:93-114 | the prompt field is the substituted prompt template and the system field the substituted context template, with the same arguments; it returns `(system, prompt)`. On failure both fields hold the raw templates |
| CleanResponse.FindFrom | nodes/bcknt/CleanResponse.py:38 | the first occurrence of a tag at or after a position, or -1 when there is none |
| CleanResponse.RemoveSpans | nodes/bcknt/CleanResponse.py:38-39 | removal never lengthens the text |
| CleanResponse.TrimStart | nodes/bcknt/CleanResponse.py:41 | drops exactly the leading whitespace |
| CleanResponse.TrimEnd | nodes/bcknt/CleanResponse.py:41 | drops exactly the trailing whitespace |
| CleanResponse.StripMeaning | nodes/bcknt/CleanResponse.py:41 | the stripped text is the middle of the input, with only whitespace cut on both sides, and it neither starts nor ends with whitespace |
| CleanResponse.StripTrimmed | nodes/bcknt/CleanResponse.py:41 | text without edge whitespace is stripped to itself |
| CleanResponse.CleanOutputs | nodes/bcknt/CleanResponse.py:37-41 | the result is a 1-tuple holding a string without leading or trailing whitespace |
| CleanResponse.KeepBefore | nodes/bcknt/CleanResponse.py:38 | a prefix in which the opening tag does not start is kept as is, and the scan goes on after it |
| CleanResponse.KeepPrefix | nodes/bcknt/CleanResponse.py:38 | text before the first `<` is kept as is |
| CleanResponse.NoOpenUnchanged | nodes/bcknt/CleanResponse.py:38 | text without an opening tag is unchanged |
| CleanResponse.UnclosedUnchanged | nodes/bcknt/CleanResponse.py:38 | text without a closing tag is unchanged, so an opening tag never closed stays |
| CleanResponse.NoBlockUnchanged | nodes/bcknt/CleanResponse.py:38-39 | text in which no opening tag is followed by a closing tag is unchanged |
| CleanResponse.NoPairsOnlyStripped | nodes/bcknt/CleanResponse.py:37-41 | a response in which no `<think>` is followed by `</think>` and no `<thinking>` by `</thinking>` is only stripped |
| CleanResponse.CloseTagKept | nodes/bcknt/CleanResponse.py:38 | a lone closing tag stays |
| CleanResponse.Block | nodes/bcknt/CleanResponse.py:38 | for any body in which the closing tag does not start, the block is removed up to the first closing tag and the scan goes on after it. The body may hold `<` and even the opening tag |
| CleanResponse.ThinkNotInThinking | nodes/bcknt/CleanResponse.py:38-39 | the `<thinking>` and `</thinking>` tags do not create a `<think>`: if the text before, inside and after a `<thinking>` block holds none, the whole holds none, so the first pass leaves that block alone |
| CleanResponse.ThinkPass | nodes/bcknt/CleanResponse.py:38 | the first pass removes a `<think>` block whose body holds no `</think>`, and keeps any text after it that holds no `<think>` |
| CleanResponse.ThinkingPass | nodes/bcknt/CleanResponse.py:39 | the second pass removes a `<thinking>` block whose body holds no `</thinking>`, and keeps the text around it when that holds no `<thinking>` |
| CleanResponse.TextBetweenBlocksKept | nodes/bcknt/CleanResponse.py:38-41 | a `<think>` block, text, a `<thinking>` block and text: exactly the two blocks go, each up to its first closing tag, and the text between and after them survives, stripped. Bodies and text may hold `<` |
| CleanResponse.AngleInBlockBody | nodes/bcknt/CleanResponse.py:38 | `<think>a<b<think>c</think>ok` cleans to `ok`: the shortest match ends at the first `</think>`, whatever the body holds |
| CleanResponse.DocumentedExample | tests/test_black_night_tales_nodes.py:44-51 | the documented response cleans to `("This is the cleanded respone",)` |
| CleanResponse.RemovalCanFormNewBlock | nodes/bcknt/CleanResponse.py:38 | one pass is not a fixed point: removing `<think>x</think>` from `<thi<think>x</think>nk>y</think>` joins the pieces into a new block `<think>y</think>` |

## Left out

- `PromptLoader.load_prompt` reads template files (nodes/bcknt/PromptLoader.py:46-68). That is file I/O, so `Run` takes the loaded prompt and context templates as parameters, and the search paths of the two loader subclasses are not modelled.
- The Ollama units (`OllamaConnectivityV2`, `OllamaOptionsV2`, `OllamaGenerateV2`) come from the package's own `ollama` module (nodes/bcknt/Agent.py:1-5). That module is not part of this model, and its units make network calls. Their schemas, return names and entry points are parameters (`Agent.OllamaUnits` and `run`).
- The two `print` calls of `run_agent` are left out because they are output only.
- Python reflection is left out: `getattr(node_class, 'FUNCTION', 'execute')`, instantiating units and `node_method(**kwargs)`. A node's entry point is the parameter `run`, and an instance is recorded as the class it was made from.
- `Executor.MultiNodeExecutor.RemoveInputs` returns a new schema instead of popping entries from the caller's dictionaries. The caller sees the same value, but the aliasing of the returned dictionary with its argument is not modelled. The same holds for the dictionaries `merge_input_types` updates and for the kwargs the executor builds.
- `MultiNodeExecutor.node_configs` and `alias_to_class` are constant fields. Python would allow reassigning them, but no code does so after `__init__`.
- Dictionary order is kept only where it shows in a result. Direct-injection entries, prompt arguments and merge inputs are sequences in their insertion order. Loops whose outcome does not depend on the order pick keys in any order.
- Executor.ExecuteTwice: holds for entry points that are functions of class and kwargs. A node that answers differently on a second call, for example because it reads a clock or the network, is not covered.
- Node entry points are deterministic in this model. `run` returns an output tuple or an exception for a given class and kwargs, and nothing else about a node's behaviour is modelled.
- Exceptions are `Err` values, and their message texts are not modelled. This covers Python's own `IndexError` for `value[0]` on an empty tuple and for an output index beyond the recorded result, and the `TypeError` of `str.replace` with a non-string value. Unpacking a renaming pair that does not have two parts is an `UnpackFailed` error.
- Values are strings, integers, booleans, `None`, tuples and lists. Floats and dictionaries as option values are only passed through by the core, so they are not modelled.
- `CleanResponse.IsSpace` is the fixed set of characters `str.strip()` removes. Python's regular-expression engine is replaced by the shortest-match scan it performs for these two patterns.
- `_get_node_params` is `Types.GroupOf` applied to each group of a unit's schema. It is pure and needs no member of its own.
- The fine-tune switch is one `Agent.AgentClass` object shared by every agent. Python's rule that `set_fine_tune` called on a subclass creates a separate subclass attribute is not modelled.
- The class-level metadata of `BaseAgent` (`RETURN_TYPES`, `RETURN_NAMES`, `CATEGORY`), `nodes/node_mappings.py` and the test set-up are left out because they hold no logic.
- A binding's bound value is the recorded output element as it is, never wrapped in a tuple, as `_process_dependencies` writes it (nodes/bcknt/MultiNodeExecutor.py:157, 168).
