/**
 The pipeline executor: a single-pass, in-order runner of node
 configurations. The class keeps the fields of the source object
 (node_configs, alias_to_class, results, instances); its methods run the
 source's loops and are proved equal to the functions of AliasAssignment,
 NodeArguments and RunFrom below, about which the properties are proved.

 A unit's entry point is a parameter `run`: for a unit class and the
 adjusted keyword arguments, the output tuple it returns or the exception
 it raises.
 */
module Executor {
  import opened Types
  import opened AliasAssignment
  import opened NodeArguments

  // ---------------------------------------------------------------------
  // remove_inputs

  function PrunedGroup(g: Option<Group>, names: seq<string>): Option<Group>
  {
    if g.Some? then Some(map k | k in g.value && k !in names :: g.value[k]) else None
  }

  /** The schema with the given names removed from both groups. A group the
      schema lacks stays absent; every other entry is kept unchanged. */
  function Pruned(data: Schema, names: seq<string>): (r: Schema)
    ensures r.required.Some? <==> data.required.Some?
    ensures r.optional.Some? <==> data.optional.Some?
    ensures forall k :: k in GroupOf(r.required) <==> k in GroupOf(data.required) && k !in names
    ensures forall k :: k in GroupOf(r.optional) <==> k in GroupOf(data.optional) && k !in names
    ensures forall k :: k in GroupOf(r.required) ==> GroupOf(r.required)[k] == GroupOf(data.required)[k]
    ensures forall k :: k in GroupOf(r.optional) ==> GroupOf(r.optional)[k] == GroupOf(data.optional)[k]
  {
    Schema(PrunedGroup(data.required, names), PrunedGroup(data.optional, names))
  }

  // ---------------------------------------------------------------------
  // execute_nodes, as a function

  ghost predicate Aliased(cfgs: seq<NodeConfig>, toClass: map<string, UnitClass>)
  {
    forall i :: 0 <= i < |cfgs| ==> cfgs[i].alias.Some? && cfgs[i].alias.value in toClass
  }

  function AliasesOf(cfgs: seq<NodeConfig>): (r: seq<string>)
    requires forall i :: 0 <= i < |cfgs| ==> cfgs[i].alias.Some?
    ensures |r| == |cfgs|
    ensures forall i :: 0 <= i < |cfgs| ==> r[i] == cfgs[i].alias.value
  {
    seq(|cfgs|, i requires 0 <= i < |cfgs| && cfgs[i].alias.Some? => cfgs[i].alias.value)
  }

  function AliasSet(cfgs: seq<NodeConfig>): set<string>
    requires forall i :: 0 <= i < |cfgs| ==> cfgs[i].alias.Some?
  {
    set i | 0 <= i < |cfgs| :: cfgs[i].alias.value
  }

  /** Preparing, checking, coercing and calling one node. */
  function NodeOutput(cfg: NodeConfig, globals: Kwargs, results: map<string, seq<Value>>,
                      toClass: map<string, UnitClass>, run: (UnitClass, Kwargs) -> Result<seq<Value>>): Result<seq<Value>>
    requires results.Keys <= toClass.Keys
    requires cfg.alias.Some?
  {
    match Prepare(cfg, globals, results, toClass)
    case Err(e) => Err(e)
    case Ok(kw) =>
      match Adjust(kw, cfg.node.schema, cfg.alias.value)
      case Err(e) => Err(e)
      case Ok(adjusted) => run(cfg.node, adjusted)
  }

  /** Running the remaining configurations in order, given the results
      recorded so far; the first failure aborts the run. */
  function RunFrom(results: map<string, seq<Value>>, cfgs: seq<NodeConfig>, globals: Kwargs,
                   toClass: map<string, UnitClass>, run: (UnitClass, Kwargs) -> Result<seq<Value>>): Result<map<string, seq<Value>>>
    requires results.Keys <= toClass.Keys
    requires Aliased(cfgs, toClass)
    decreases |cfgs|
  {
    if cfgs == [] then Ok(results)
    else
      match NodeOutput(cfgs[0], globals, results, toClass, run)
      case Err(e) => Err(e)
      case Ok(out) => RunFrom(results[cfgs[0].alias.value := out], cfgs[1..], globals, toClass, run)
  }

  /** A run over a concatenation is the run over the first part continued
      with the second. */
  lemma {:induction false} RunSplit(results: map<string, seq<Value>>, a: seq<NodeConfig>, b: seq<NodeConfig>,
                                    globals: Kwargs, toClass: map<string, UnitClass>,
                                    run: (UnitClass, Kwargs) -> Result<seq<Value>>)
    requires results.Keys <= toClass.Keys
    requires Aliased(a + b, toClass)
    ensures Aliased(a, toClass) && Aliased(b, toClass)
    ensures RunFrom(results, a, globals, toClass, run).Ok? ==>
      RunFrom(results, a, globals, toClass, run).value.Keys <= toClass.Keys
    ensures RunFrom(results, a + b, globals, toClass, run) ==
      match RunFrom(results, a, globals, toClass, run)
      case Err(e) => Err(e)
      case Ok(m) => RunFrom(m, b, globals, toClass, run)
    decreases |a|
  {
    assert forall i :: 0 <= i < |a| ==> a[i] == (a + b)[i];
    assert forall i :: 0 <= i < |b| ==> b[i] == (a + b)[|a| + i];
    if a == [] {
      assert a + b == b;
    } else {
      assert (a + b)[1..] == a[1..] + b;
      assert forall i :: 0 <= i < |a[1..] + b| ==> (a[1..] + b)[i] == (a + b)[i + 1];
      var out := NodeOutput(a[0], globals, results, toClass, run);
      if out.Ok? {
        RunSplit(results[a[0].alias.value := out.value], a[1..], b, globals, toClass, run);
      }
    }
  }

  /** A run records one result per configuration and keeps the results it
      started from under aliases it does not run. */
  lemma {:induction false} RunRecords(results: map<string, seq<Value>>, cfgs: seq<NodeConfig>, globals: Kwargs,
                                      toClass: map<string, UnitClass>, run: (UnitClass, Kwargs) -> Result<seq<Value>>)
    requires results.Keys <= toClass.Keys
    requires Aliased(cfgs, toClass)
    requires RunFrom(results, cfgs, globals, toClass, run).Ok?
    ensures RunFrom(results, cfgs, globals, toClass, run).value.Keys == results.Keys + AliasSet(cfgs)
    ensures forall a :: a in results && a !in AliasSet(cfgs) ==>
      RunFrom(results, cfgs, globals, toClass, run).value[a] == results[a]
    decreases |cfgs|
  {
    if cfgs != [] {
      var out := NodeOutput(cfgs[0], globals, results, toClass, run).value;
      var a0 := cfgs[0].alias.value;
      RunRecords(results[a0 := out], cfgs[1..], globals, toClass, run);
      assert AliasSet(cfgs) == {a0} + AliasSet(cfgs[1..]) by {
        forall a | a in AliasSet(cfgs) ensures a in {a0} + AliasSet(cfgs[1..]) {
          var i :| 0 <= i < |cfgs| && cfgs[i].alias.value == a;
          if i > 0 { assert cfgs[1..][i - 1] == cfgs[i]; }
        }
        forall a | a in AliasSet(cfgs[1..]) ensures a in AliasSet(cfgs) {
          var i :| 0 <= i < |cfgs| - 1 && cfgs[1..][i].alias.value == a;
          assert cfgs[i + 1] == cfgs[1..][i];
        }
      }
    }
  }

  /** One step of a run, on a suffix of the configurations. */
  lemma RunStep(results: map<string, seq<Value>>, cfgs: seq<NodeConfig>, i: nat, globals: Kwargs,
                toClass: map<string, UnitClass>, run: (UnitClass, Kwargs) -> Result<seq<Value>>)
    requires results.Keys <= toClass.Keys
    requires Aliased(cfgs, toClass)
    requires i < |cfgs|
    ensures Aliased(cfgs[i..], toClass) && Aliased(cfgs[i + 1..], toClass)
    ensures RunFrom(results, cfgs[i..], globals, toClass, run) ==
      match NodeOutput(cfgs[i], globals, results, toClass, run)
      case Err(e) => Err(e)
      case Ok(out) => RunFrom(results[cfgs[i].alias.value := out], cfgs[i + 1..], globals, toClass, run)
  {
    assert cfgs[i..][1..] == cfgs[i + 1..];
    assert forall j :: 0 <= j < |cfgs| - i ==> cfgs[i..][j] == cfgs[i + j];
  }

  /** A run over a prefix extended by one node that succeeds. */
  lemma PrefixStep(cfgs: seq<NodeConfig>, i: nat, results: map<string, seq<Value>>, out: seq<Value>,
                   globals: Kwargs, toClass: map<string, UnitClass>, run: (UnitClass, Kwargs) -> Result<seq<Value>>)
    requires Aliased(cfgs, toClass)
    requires i < |cfgs|
    requires results.Keys <= toClass.Keys
    requires Aliased(cfgs[..i], toClass) && RunFrom(map[], cfgs[..i], globals, toClass, run) == Ok(results)
    requires NodeOutput(cfgs[i], globals, results, toClass, run) == Ok(out)
    ensures Aliased(cfgs[..i + 1], toClass)
    ensures RunFrom(map[], cfgs[..i + 1], globals, toClass, run) == Ok(results[cfgs[i].alias.value := out])
  {
    assert cfgs[..i + 1] == cfgs[..i] + [cfgs[i]];
    RunSplit(map[], cfgs[..i], [cfgs[i]], globals, toClass, run);
    assert [cfgs[i]][1..] == [];
  }

  /** A run whose prefix before node i succeeds and whose node i fails
      fails with that node's error. */
  lemma PrefixFails(cfgs: seq<NodeConfig>, i: nat, results: map<string, seq<Value>>, e: Error,
                    globals: Kwargs, toClass: map<string, UnitClass>, run: (UnitClass, Kwargs) -> Result<seq<Value>>)
    requires Aliased(cfgs, toClass)
    requires i < |cfgs|
    requires results.Keys <= toClass.Keys
    requires Aliased(cfgs[..i], toClass) && RunFrom(map[], cfgs[..i], globals, toClass, run) == Ok(results)
    requires NodeOutput(cfgs[i], globals, results, toClass, run) == Err(e)
    ensures RunFrom(map[], cfgs, globals, toClass, run) == Err(e)
  {
    assert cfgs == cfgs[..i] + cfgs[i..];
    RunSplit(map[], cfgs[..i], cfgs[i..], globals, toClass, run);
    RunStep(results, cfgs, i, globals, toClass, run);
  }

  /** A run that stopped at node i with error e: the results are those of
      the nodes before i, node i failed with e, and the instances are those
      of the earlier nodes plus node i's when its preparation succeeded
      (the instance is made before the required-parameter check). */
  ghost predicate StoppedAt(cfgs: seq<NodeConfig>, i: int, globals: Kwargs, toClass: map<string, UnitClass>,
                            run: (UnitClass, Kwargs) -> Result<seq<Value>>, results: map<string, seq<Value>>,
                            instanceNames: set<string>, e: Error)
  {
    && 0 <= i < |cfgs| && cfgs[i].alias.Some?
    && results.Keys <= toClass.Keys
    && Aliased(cfgs[..i], toClass)
    && RunFrom(map[], cfgs[..i], globals, toClass, run) == Ok(results)
    && NodeOutput(cfgs[i], globals, results, toClass, run) == Err(e)
    && instanceNames == (if Prepare(cfgs[i], globals, results, toClass).Ok?
                         then results.Keys + {cfgs[i].alias.value} else results.Keys)
  }

  /** The state after node i failed, from the instances before and after
      its `_execute_node` call. */
  lemma StopsAt(cfgs: seq<NodeConfig>, i: nat, globals: Kwargs, toClass: map<string, UnitClass>,
                run: (UnitClass, Kwargs) -> Result<seq<Value>>, results: map<string, seq<Value>>,
                before: map<string, UnitClass>, after: map<string, UnitClass>, e: Error)
    requires Aliased(cfgs, toClass) && i < |cfgs|
    requires results.Keys <= toClass.Keys
    requires Aliased(cfgs[..i], toClass) && RunFrom(map[], cfgs[..i], globals, toClass, run) == Ok(results)
    requires NodeOutput(cfgs[i], globals, results, toClass, run) == Err(e)
    requires before.Keys == results.Keys
    requires after ==
      if Prepare(cfgs[i], globals, results, toClass).Ok? && cfgs[i].alias.value !in before
      then before[cfgs[i].alias.value := cfgs[i].node]
      else before
    ensures RunFrom(map[], cfgs, globals, toClass, run) == Err(e)
    ensures StoppedAt(cfgs, i, globals, toClass, run, results, after.Keys, e)
  {
    PrefixFails(cfgs, i, results, e, globals, toClass, run);
  }

  /** Each node of a successful run is executed with exactly the results of
      the nodes before it, so a binding can only reach earlier nodes, and its
      recorded output is not overwritten afterwards. */
  lemma EachNodeSeesEarlierResults(cfgs: seq<NodeConfig>, globals: Kwargs, toClass: map<string, UnitClass>,
                                   run: (UnitClass, Kwargs) -> Result<seq<Value>>, i: nat)
    requires Aliased(cfgs, toClass)
    requires Distinct(AliasesOf(cfgs))
    requires RunFrom(map[], cfgs, globals, toClass, run).Ok?
    requires i < |cfgs|
    ensures Aliased(cfgs[..i], toClass)
    ensures RunFrom(map[], cfgs[..i], globals, toClass, run).Ok?
    ensures var before := RunFrom(map[], cfgs[..i], globals, toClass, run).value;
      && before.Keys == AliasSet(cfgs[..i])
      && before.Keys <= toClass.Keys
      && NodeOutput(cfgs[i], globals, before, toClass, run).Ok?
      && cfgs[i].alias.value in RunFrom(map[], cfgs, globals, toClass, run).value
      && RunFrom(map[], cfgs, globals, toClass, run).value[cfgs[i].alias.value]
         == NodeOutput(cfgs[i], globals, before, toClass, run).value
  {
    assert cfgs == cfgs[..i] + cfgs[i..];
    RunSplit(map[], cfgs[..i], cfgs[i..], globals, toClass, run);
    var before := RunFrom(map[], cfgs[..i], globals, toClass, run).value;
    RunRecords(map[], cfgs[..i], globals, toClass, run);
    var rest := cfgs[i..];
    var out := NodeOutput(rest[0], globals, before, toClass, run).value;
    var a := cfgs[i].alias.value;
    var after := before[a := out];
    assert a !in AliasSet(rest[1..]) by {
      forall j | 0 <= j < |rest| - 1 ensures rest[1..][j].alias.value != a {
        assert rest[1..][j] == cfgs[i + 1 + j];
        assert AliasesOf(cfgs)[i] != AliasesOf(cfgs)[i + 1 + j];
      }
    }
    RunRecords(after, rest[1..], globals, toClass, run);
  }

  /** Node P declares the output ("out",) and node Q the required parameter
      out, bound by the single binding ("P", "out"); when P's entry point
      returns ("hello",), Q is called with out = "hello" and its output is
      recorded under "Q", or what Q raises is the outcome of the run. */
  lemma TwoNodePipeline(p: UnitClass, q: UnitClass, run: (UnitClass, Kwargs) -> Result<seq<Value>>)
    requires p == UnitClass("P", Schema(None, None), Some(["out"]))
    requires q == UnitClass("Q", Schema(Some(map["out" := Param(Named("STRING"), Some(map[]))]), None), None)
    requires run(p, map[]) == Ok([Str("hello")])
    ensures var cfgs := [NodeConfig(p, Some("P"), None, map[]),
                         NodeConfig(q, Some("Q"), Some(Single([Str("P"), Str("out")])), map[])];
            var toClass := map["P" := p, "Q" := q];
            Aliased(cfgs, toClass) &&
            RunFrom(map[], cfgs, map[], toClass, run)
              == match run(q, map["out" := Str("hello")])
                 case Err(e) => Err(e)
                 case Ok(out) => Ok(map["P" := [Str("hello")], "Q" := out])
  {
    var cfgs := [NodeConfig(p, Some("P"), None, map[]),
                 NodeConfig(q, Some("Q"), Some(Single([Str("P"), Str("out")])), map[])];
    var toClass := map["P" := p, "Q" := q];
    assert OptionalDefaults(p.schema) == map[];
    assert GlobalsFor(p.schema, map[]) == map[];
    assert Prepare(cfgs[0], map[], map[], toClass) == Ok(map[]);
    assert Adjust(map[], p.schema, "P") == Ok(map[]);
    var r1 := map["P" := [Str("hello")]];
    assert NodeOutput(cfgs[0], map[], map[], toClass, run) == Ok([Str("hello")]);
    assert OptionalDefaults(q.schema) == map[];
    assert GlobalsFor(q.schema, map[]) == map[];
    var kw := map["out" := Str("hello")];
    assert IndexOf(["out"], "out") == 0;
    var binding: Binding := [Str("P"), Str("out")];
    assert BindOne(map[], q.schema, "Q", binding, r1, toClass) == Ok(kw);
    assert [binding][1..] == [];
    assert Dependencies(cfgs[1].inputs) == [binding];
    assert BindAll(map[], q.schema, "Q", [binding], r1, toClass) == Ok(kw);
    assert OptionalDefaults(q.schema) + GlobalsFor(q.schema, map[]) == map[];
    assert Resolve(map[], q, cfgs[1].inputs, r1, toClass) == Ok(kw);
    assert kw + map[] == kw;
    assert Prepare(cfgs[1], map[], r1, toClass) == Ok(kw);
    assert CoerceValue(Str("hello"), ParamInfo(q.schema, "out")) == Some(Str("hello"));
    assert (map k | k in kw :: CoerceValue(kw[k], ParamInfo(q.schema, k)).value) == kw;
    assert Adjust(kw, q.schema, "Q") == Ok(kw);
    assert NodeOutput(cfgs[1], map[], r1, toClass, run) == run(q, kw);
    assert cfgs[1..][1..] == [];
    if run(q, kw).Ok? {
      var r2 := r1["Q" := run(q, kw).value];
      assert RunFrom(r1, cfgs[1..], map[], toClass, run) == RunFrom(r2, [], map[], toClass, run);
    }
    assert RunFrom(map[], cfgs, map[], toClass, run) == RunFrom(r1, cfgs[1..], map[], toClass, run);
  }

  /** The stored configurations against the alias registry: each carries
      its alias, the aliases are pairwise distinct and the registry maps each
      to the configuration's class. */
  ghost predicate Registered(cfgs: seq<NodeConfig>, toClass: map<string, UnitClass>)
  {
    && Aliased(cfgs, toClass)
    && (forall i :: 0 <= i < |cfgs| ==> toClass[cfgs[i].alias.value] == cfgs[i].node)
    && Distinct(AliasesOf(cfgs))
  }

  /** What the constructor stores satisfies the executor's invariant. */
  lemma StoredRegistered(cfgs: seq<NodeConfig>)
    requires Register(cfgs).Ok?
    ensures Registered(StoredConfigs(cfgs, Register(cfgs).value.aliases), Register(cfgs).value.toClass)
  {
    RegisterConsistent(cfgs);
    var t := Register(cfgs).value;
    var stored := StoredConfigs(cfgs, t.aliases);
    forall i | 0 <= i < |stored| ensures stored[i].alias.value in t.toClass {
      assert t.aliases[i] in (set j | 0 <= j < |t.aliases| :: t.aliases[j]);
    }
    assert AliasesOf(stored) == t.aliases;
  }

  /** The stored list grows by one configuration per iteration. */
  lemma StoredStep(cfgs: seq<NodeConfig>, aliases: seq<string>, i: nat, a: string)
    requires |aliases| == i < |cfgs|
    ensures StoredConfigs(cfgs[..i], aliases) + [WithAlias(cfgs[i], a)]
         == StoredConfigs(cfgs[..i + 1], aliases + [a])
  {
  }

  /** The entries of g under the given names. It serves only to state the
      loop invariants of `AddGlobals` and `ReadDefaults`; the globals a unit
      receives are `NodeArguments.GlobalsFor` (see `GlobalsRestrict`). */
  function Restrict(g: Kwargs, names: set<string>): Kwargs
  {
    map k | k in names && k in g :: g[k]
  }

  lemma GlobalsRestrict(s: Schema, globals: Kwargs)
    ensures Restrict(globals, Declared(s)) == GlobalsFor(s, globals)
  {
  }

  lemma RestrictStep(d: Kwargs, g: Kwargs, done: set<string>, k: string)
    ensures k in g ==> (d + Restrict(g, done))[k := g[k]] == d + Restrict(g, done + {k})
    ensures k !in g ==> Restrict(g, done) == Restrict(g, done + {k})
  {
  }

  /** One step of the defaults comprehension: an entry with an options dict
      adds its default, if it declares one. */
  lemma DefaultsStep(g: Group, done: set<string>, k: string)
    requires k in g && g[k].options.Some?
    ensures Restrict(GroupDefaults(g), done + {k}) ==
      if "default" in g[k].options.value
      then Restrict(GroupDefaults(g), done)[k := g[k].options.value["default"]]
      else Restrict(GroupDefaults(g), done)
  {
  }

  /** Once every name is visited, the comprehension is complete. */
  lemma DefaultsAll(g: Group, done: set<string>)
    requires done == g.Keys
    ensures Restrict(GroupDefaults(g), done) == GroupDefaults(g)
  {
  }

  /** The kwargs not yet visited by the coercion pass can all be coerced. */
  ghost predicate CoercibleExcept(kw: Kwargs, s: Schema, pending: set<string>)
  {
    forall k :: k in kw && k !in pending ==> CoerceValue(kw[k], ParamInfo(s, k)).Some?
  }

  /** The coerced kwargs outside the names still pending. */
  function CoercedExcept(kw: Kwargs, s: Schema, pending: set<string>): Kwargs
    requires CoercibleExcept(kw, s, pending)
  {
    map k | k in kw && k !in pending :: CoerceValue(kw[k], ParamInfo(s, k)).value
  }

  lemma CoerceStep(kw: Kwargs, s: Schema, pending: set<string>, k: string)
    requires CoercibleExcept(kw, s, pending)
    requires k in kw
    ensures CoerceValue(kw[k], ParamInfo(s, k)).Some? ==>
      && CoercibleExcept(kw, s, pending - {k})
      && CoercedExcept(kw, s, pending)[k := CoerceValue(kw[k], ParamInfo(s, k)).value]
         == CoercedExcept(kw, s, pending - {k})
  {
  }

  lemma AdjustByParts(kw: Kwargs, s: Schema, alias: string)
    requires GroupOf(s.required).Keys <= kw.Keys
    requires CoercibleExcept(kw, s, {})
    ensures Adjust(kw, s, alias) == Ok(CoercedExcept(kw, s, {}))
  {
    assert Coercible(kw, s);
    assert CoercedExcept(kw, s, {}) == map k | k in kw :: CoerceValue(kw[k], ParamInfo(s, k)).value;
  }

  lemma EmptyTupleFails(kw: Kwargs, s: Schema, alias: string, k: string)
    requires GroupOf(s.required).Keys <= kw.Keys
    requires k in kw && CoerceValue(kw[k], ParamInfo(s, k)).None?
    ensures Adjust(kw, s, alias) == Err(EmptyTupleArgument(alias))
  {
  }

  // ---------------------------------------------------------------------
  // The executor object

  class MultiNodeExecutor {
    // Set once by the constructor and never reassigned afterwards.
    const nodeConfigs: seq<NodeConfig>
    const aliasToClass: map<string, UnitClass>
    var results: map<string, seq<Value>>
    var instances: map<string, UnitClass>

    /** Every stored configuration carries its alias, the aliases are
        pairwise distinct and the registry maps each to its class. */
    ghost predicate Valid()
    {
      Registered(nodeConfigs, aliasToClass)
    }

    constructor Init(configs: seq<NodeConfig>, toClass: map<string, UnitClass>)
      ensures nodeConfigs == configs && aliasToClass == toClass
      ensures results == map[] && instances == map[]
    {
      nodeConfigs := configs;
      aliasToClass := toClass;
      results := map[];
      instances := map[];
    }

    /** `MultiNodeExecutor(node_configs)`: the alias-assignment loop. It
        fails exactly when the alias-assignment function fails, and stores
        each configuration with its alias. */
    static method New(configs: seq<NodeConfig>) returns (r: Result<MultiNodeExecutor>)
      ensures r.Ok? <==> Register(configs).Ok?
      ensures r.Err? ==> r.error == Register(configs).error
      ensures r.Ok? ==>
        && fresh(r.value)
        && r.value.Valid()
        && r.value.nodeConfigs == StoredConfigs(configs, Register(configs).value.aliases)
        && r.value.aliasToClass == Register(configs).value.toClass
        && r.value.results == map[] && r.value.instances == map[]
    {
      var stored: seq<NodeConfig> := [];
      var aliasCounter: map<string, nat> := map[];
      var aliasToClass: map<string, UnitClass> := map[];
      ghost var aliases: seq<string> := [];
      var i := 0;
      while i < |configs|
        invariant 0 <= i <= |configs|
        invariant Register(configs[..i]) == Ok(AliasTable(aliasCounter, aliasToClass, aliases))
        invariant |aliases| == i
        invariant stored == StoredConfigs(configs[..i], aliases)
      {
        RegisterStep(configs, i);
        var config := configs[i];
        var cls := config.node;
        var alias: string;
        if config.alias.Some? && config.alias.value != "" {
          alias := config.alias.value;
          if alias in aliasToClass {
            RegisterErrSticks(configs, i + 1);
            return Err(DuplicateAlias(alias));
          }
          aliasToClass := aliasToClass[alias := cls];
        } else {
          var baseName := cls.name;
          aliasCounter, alias := NextAlias(aliasCounter, aliasToClass, baseName);
          aliasToClass := aliasToClass[alias := cls];
        }
        StoredStep(configs, aliases, i, alias);
        stored := stored + [WithAlias(config, alias)];
        aliases := aliases + [alias];
        i := i + 1;
      }
      assert configs[..i] == configs;
      StoredRegistered(configs);
      var e := new MultiNodeExecutor.Init(stored, aliasToClass);
      return Ok(e);
    }

    /** The generated-alias branch of the constructor's loop: bump the
        counter of the class name, then keep bumping while the candidate is
        taken. */
    static method NextAlias(aliasCounter: map<string, nat>, aliasToClass: map<string, UnitClass>, baseName: string)
      returns (counter: map<string, nat>, alias: string)
      ensures var k := FirstFree(baseName, CountOf(aliasCounter, baseName) + 1, aliasToClass.Keys);
        counter == aliasCounter[baseName := k] && alias == Candidate(baseName, k)
    {
      ghost var start := CountOf(aliasCounter, baseName) + 1;
      counter := aliasCounter[baseName := CountOf(aliasCounter, baseName) + 1];
      alias := if counter[baseName] == 1 then baseName else Suffixed(baseName, counter[baseName]);
      while alias in aliasToClass
        invariant baseName in counter && counter[baseName] >= start
        invariant counter == aliasCounter[baseName := counter[baseName]]
        invariant alias == Candidate(baseName, counter[baseName])
        invariant FirstFree(baseName, start, aliasToClass.Keys)
               == FirstFree(baseName, counter[baseName], aliasToClass.Keys)
        decreases |Unexplored(baseName, counter[baseName], aliasToClass.Keys)|
      {
        UnexploredShrinks(baseName, counter[baseName], aliasToClass.Keys);
        counter := counter[baseName := counter[baseName] + 1];
        alias := Suffixed(baseName, counter[baseName]);
      }
    }

    /** `remove_inputs`: pops the given names from both groups. */
    static method RemoveInputs(inputData: Schema, inputNames: seq<string>) returns (r: Schema)
      ensures r == Pruned(inputData, inputNames)
    {
      r := inputData;
      if inputData.required.Some? {
        var group := inputData.required.value;
        for i := 0 to |inputNames|
          invariant group == map k | k in inputData.required.value && k !in inputNames[..i] :: inputData.required.value[k]
        {
          assert inputNames[..i + 1] == inputNames[..i] + [inputNames[i]];
          group := group - {inputNames[i]};
        }
        assert inputNames[..|inputNames|] == inputNames;
        r := r.(required := Some(group));
      }
      if inputData.optional.Some? {
        var group := inputData.optional.value;
        for i := 0 to |inputNames|
          invariant group == map k | k in inputData.optional.value && k !in inputNames[..i] :: inputData.optional.value[k]
        {
          assert inputNames[..i + 1] == inputNames[..i] + [inputNames[i]];
          group := group - {inputNames[i]};
        }
        assert inputNames[..|inputNames|] == inputNames;
        r := r.(optional := Some(group));
      }
    }

    /** `_prepare_node_kwargs`: defaults, then global kwargs, then inputs,
        then fixed_kwargs, built up in one map. */
    method PrepareNodeKwargs(nodeClass: UnitClass, globalKwargs: Kwargs, config: NodeConfig)
      returns (r: Result<Kwargs>)
      requires config.node == nodeClass
      requires results.Keys <= aliasToClass.Keys
      ensures r == Prepare(config, globalKwargs, results, aliasToClass)
    {
      var s := nodeClass.schema;
      var required := GroupOf(s.required);
      var optional := GroupOf(s.optional);
      var initial := DefaultsAndGlobals(nodeClass, globalKwargs);
      if initial.Err? {
        return initial;
      }
      var nodeKwargs := initial.value;
      if config.inputs.Some? && config.inputs.value.Direct? {
        var injected := InjectDirect(nodeClass, nodeKwargs, config.inputs.value.entries);
        if injected.Err? {
          return injected;
        }
        nodeKwargs := injected.value;
      } else {
        var dependencies := Dependencies(config.inputs);
        var bound := ProcessDependencies(nodeClass, dependencies, nodeKwargs, required.Keys, optional.Keys);
        if bound.Err? {
          return Err(bound.error);
        }
        nodeKwargs := bound.value;
      }
      nodeKwargs := nodeKwargs + config.fixedKwargs;
      return Ok(nodeKwargs);
    }

    /** Steps 1 and 2 of `_prepare_node_kwargs`: the optional defaults,
        then every declared name found in the global kwargs. */
    static method DefaultsAndGlobals(nodeClass: UnitClass, globalKwargs: Kwargs) returns (r: Result<Kwargs>)
      ensures r == if HasOptions(GroupOf(nodeClass.schema.optional))
                   then Ok(OptionalDefaults(nodeClass.schema) + GlobalsFor(nodeClass.schema, globalKwargs))
                   else Err(OptionsMissing(nodeClass.name))
    {
      var s := nodeClass.schema;
      var defaults := ReadDefaults(GroupOf(s.optional), nodeClass.name);
      if defaults.Err? {
        return defaults;
      }
      var nodeKwargs := AddGlobals(defaults.value, s, globalKwargs);
      return Ok(nodeKwargs);
    }

    /** The loop of step 2: every declared name found in the global kwargs
        overrides what kw holds. */
    static method AddGlobals(kw: Kwargs, s: Schema, globalKwargs: Kwargs) returns (nodeKwargs: Kwargs)
      ensures nodeKwargs == kw + GlobalsFor(s, globalKwargs)
    {
      nodeKwargs := kw;
      var declared := Declared(s);
      ghost var done: set<string> := {};
      var pending := declared;
      while pending != {}
        invariant pending <= declared && done == declared - pending
        invariant nodeKwargs == kw + Restrict(globalKwargs, done)
        decreases |pending|
      {
        var k :| k in pending;
        RestrictStep(kw, globalKwargs, done, k);
        if k in globalKwargs {
          nodeKwargs := nodeKwargs[k := globalKwargs[k]];
        }
        pending := pending - {k};
        done := done + {k};
      }
      assert done == Declared(s);
      GlobalsRestrict(s, globalKwargs);
    }

    /** The comprehension of step 1: `v[1]['default']` for each optional
        entry whose options hold a default. Reading `v[1]` of an entry
        without options raises. */
    static method ReadDefaults(optional: Group, unitName: string) returns (r: Result<Kwargs>)
      ensures r == if HasOptions(optional) then Ok(GroupDefaults(optional)) else Err(OptionsMissing(unitName))
    {
      var defaults: Kwargs := map[];
      var pending := optional.Keys;
      ghost var done: set<string> := {};
      while pending != {}
        invariant pending <= optional.Keys && done == optional.Keys - pending
        invariant forall k :: k in optional && k in done ==> optional[k].options.Some?
        invariant defaults == Restrict(GroupDefaults(optional), done)
        decreases |pending|
      {
        var k :| k in pending;
        var v := optional[k];
        if v.options.None? {
          return Err(OptionsMissing(unitName));
        }
        DefaultsStep(optional, done, k);
        if "default" in v.options.value {
          defaults := defaults[k := v.options.value["default"]];
        }
        pending := pending - {k};
        done := done + {k};
      }
      DefaultsAll(optional, done);
      return Ok(defaults);
    }

    /** Step 3 of `_prepare_node_kwargs` for a dict of inputs: each entry,
        wrapped as a tuple, under a declared name. */
    static method InjectDirect(nodeClass: UnitClass, kw: Kwargs, entries: seq<(string, Value)>)
      returns (r: Result<Kwargs>)
      ensures r == Inject(kw, nodeClass.schema, nodeClass.name, entries)
    {
      var declared := Declared(nodeClass.schema);
      var nodeKwargs := kw;
      for i := 0 to |entries|
        invariant Inject(kw, nodeClass.schema, nodeClass.name, entries)
               == Inject(nodeKwargs, nodeClass.schema, nodeClass.name, entries[i..])
      {
        assert entries[i..][1..] == entries[i + 1..];
        var param := entries[i].0;
        var value := entries[i].1;
        if !value.Tuple? {
          value := Tuple([value]);
        }
        if param in declared {
          nodeKwargs := nodeKwargs[param := value];
        } else {
          return Err(InvalidParameter(nodeClass.name, param));
        }
      }
      return Ok(nodeKwargs);
    }

    /** `_process_dependencies`: resolves the bindings in order against the
        results recorded so far. */
    method ProcessDependencies(nodeClass: UnitClass, dependencies: seq<Binding>, nodeKwargs: Kwargs,
                               requiredParams: set<string>, optionalParams: set<string>)
      returns (r: Result<Kwargs>)
      requires results.Keys <= aliasToClass.Keys
      requires requiredParams + optionalParams == Declared(nodeClass.schema)
      ensures r == BindAll(nodeKwargs, nodeClass.schema, nodeClass.name, dependencies, results, aliasToClass)
    {
      var s := nodeClass.schema;
      var kw := nodeKwargs;
      for d := 0 to |dependencies|
        invariant BindAll(nodeKwargs, s, nodeClass.name, dependencies, results, aliasToClass)
               == BindAll(kw, s, nodeClass.name, dependencies[d..], results, aliasToClass)
      {
        var dep := dependencies[d];
        assert dependencies[d..][1..] == dependencies[d + 1..];
        if |dep| != 2 {
          return Err(MalformedBinding(nodeClass.name));
        }
        var depNode, depSpec := dep[0], dep[1];
        if !depNode.Str? || depNode.s !in results {
          return Err(DependencyNotFound(depNode));
        }
        var depClass := aliasToClass[depNode.s];
        var returnNames := depClass.returnNames;
        if returnNames.None? {
          return Err(NoReturnNames(depNode.s));
        }
        var depResult := results[depNode.s];
        if depSpec.Str? {
          if depSpec.s in returnNames.value {
            var index := IndexOf(returnNames.value, depSpec.s);
            if depSpec.s in requiredParams + optionalParams {
              if index >= |depResult| {
                return Err(OutputIndexOutOfRange(depNode.s));
              }
              kw := kw[depSpec.s := depResult[index]];
            } else {
              return Err(InvalidInput(nodeClass.name, depSpec));
            }
          } else {
            return Err(OutputNotFound(depSpec, depNode.s));
          }
        } else if depSpec.List? {
          var pairs := depSpec.items;
          ghost var kwAtDep := kw;
          for j := 0 to |pairs|
            invariant BindOne(kwAtDep, s, nodeClass.name, dep, results, aliasToClass)
                   == BindRenames(kw, s, nodeClass.name, depNode.s, returnNames.value, depResult, pairs[j..])
          {
            assert pairs[j..][1..] == pairs[j + 1..];
            var unpacked := Unpack2(pairs[j]);
            if unpacked.None? {
              return Err(UnpackFailed(depNode.s));
            }
            var outName, inName := unpacked.value.0, unpacked.value.1;
            if outName.Str? && outName.s in returnNames.value {
              var index := IndexOf(returnNames.value, outName.s);
              if inName.Str? && inName.s in requiredParams + optionalParams {
                if index >= |depResult| {
                  return Err(OutputIndexOutOfRange(depNode.s));
                }
                kw := kw[inName.s := depResult[index]];
              } else {
                return Err(InvalidInput(nodeClass.name, inName));
              }
            } else {
              return Err(OutputNotFound(outName, depNode.s));
            }
          }
        } else {
          return Err(InvalidSpec(depNode.s));
        }
      }
      return Ok(kw);
    }

    /** `_execute_node`: creates the instance for the alias if there is none,
        checks the required parameters, coerces and calls the entry point. */
    method ExecuteNode(nodeClass: UnitClass, nodeKwargs: Kwargs, alias: string,
                       run: (UnitClass, Kwargs) -> Result<seq<Value>>) returns (r: Result<seq<Value>>)
      modifies this`instances
      ensures instances == if alias in old(instances) then old(instances) else old(instances)[alias := nodeClass]
      ensures r == match Adjust(nodeKwargs, nodeClass.schema, alias)
                   case Err(e) => Err(e)
                   case Ok(adjusted) => run(nodeClass, adjusted)
    {
      if alias !in instances {
        instances := instances[alias := nodeClass];
      }
      var adjusted := AdjustKwargs(nodeClass.schema, nodeKwargs, alias);
      if adjusted.Err? {
        return Err(adjusted.error);
      }
      r := run(nodeClass, adjusted.value);
    }

    /** The checks of `_execute_node` before the call: the missing required
        parameters, then one pass over the kwargs unwrapping the tuples given
        to declared parameters whose kind is not a list of choices. */
    static method AdjustKwargs(s: Schema, nodeKwargs: Kwargs, alias: string) returns (r: Result<Kwargs>)
      ensures r == Adjust(nodeKwargs, s, alias)
    {
      var missingParams := GroupOf(s.required).Keys - nodeKwargs.Keys;
      if missingParams != {} {
        return Err(MissingRequired(alias, missingParams));
      }
      assert GroupOf(s.required).Keys <= nodeKwargs.Keys by {
        forall k | k in GroupOf(s.required) ensures k in nodeKwargs {
          assert k !in missingParams;
        }
      }
      var adjusted: Kwargs := map[];
      var pending := nodeKwargs.Keys;
      while pending != {}
        invariant pending <= nodeKwargs.Keys
        invariant CoercibleExcept(nodeKwargs, s, pending)
        invariant adjusted == CoercedExcept(nodeKwargs, s, pending)
        decreases |pending|
      {
        var param :| param in pending;
        var value := nodeKwargs[param];
        var paramInfo := ParamInfo(s, param);
        if paramInfo.Some? && value.Tuple? && !paramInfo.value.kind.Choices? {
          if value.items == [] {
            EmptyTupleFails(nodeKwargs, s, alias, param);
            return Err(EmptyTupleArgument(alias));
          }
          value := value.items[0];
        }
        CoerceStep(nodeKwargs, s, pending, param);
        adjusted := adjusted[param := value];
        pending := pending - {param};
      }
      AdjustByParts(nodeKwargs, s, alias);
      return Ok(adjusted);
    }

    /** The body of `execute_nodes`' loop before the result is recorded:
        prepares the kwargs of the i-th configuration and executes it. The
        instance is created once preparation has succeeded. */
    method RunConfig(i: nat, globalKwargs: Kwargs, run: (UnitClass, Kwargs) -> Result<seq<Value>>)
      returns (r: Result<seq<Value>>)
      requires Valid() && i < |nodeConfigs|
      requires results.Keys <= aliasToClass.Keys
      modifies this`instances
      ensures r == NodeOutput(nodeConfigs[i], globalKwargs, results, aliasToClass, run)
      ensures instances ==
        if Prepare(nodeConfigs[i], globalKwargs, results, aliasToClass).Ok? && nodeConfigs[i].alias.value !in old(instances)
        then old(instances)[nodeConfigs[i].alias.value := nodeConfigs[i].node]
        else old(instances)
    {
      var config := nodeConfigs[i];
      var nodeKwargs := PrepareNodeKwargs(config.node, globalKwargs, config);
      if nodeKwargs.Err? {
        return Err(nodeKwargs.error);
      }
      r := ExecuteNode(config.node, nodeKwargs.value, config.alias.value, run);
    }

    /** `execute_nodes`: resets the per-run state and runs every stored
        configuration in order. The outcome is the run function of the
        stored configurations, whatever the state before the call; after a
        failure the results of the nodes before the failing one stay
        recorded, and so do their instances, together with the failing
        node's when it failed after preparation. */
    method ExecuteNodes(globalKwargs: Kwargs, run: (UnitClass, Kwargs) -> Result<seq<Value>>)
      returns (r: Result<map<string, seq<Value>>>)
      requires Valid()
      modifies this`results, this`instances
      ensures r == RunFrom(map[], nodeConfigs, globalKwargs, aliasToClass, run)
      ensures r.Ok? ==> results == r.value && results.Keys == AliasSet(nodeConfigs)
      ensures r.Ok? ==> instances.Keys == results.Keys
      ensures r.Err? ==>
        exists i :: StoppedAt(nodeConfigs, i, globalKwargs, aliasToClass, run, results, instances.Keys, r.error)
      ensures forall a :: a in instances ==> a in aliasToClass && instances[a] == aliasToClass[a]
    {
      results := map[];
      instances := map[];
      ghost var cfgs, toClass := nodeConfigs, aliasToClass;
      assert cfgs[..0] == [];
      for i := 0 to |nodeConfigs|
        invariant results.Keys <= toClass.Keys
        invariant Aliased(cfgs[..i], toClass)
        invariant RunFrom(map[], cfgs[..i], globalKwargs, toClass, run) == Ok(results)
        invariant instances.Keys == results.Keys
        invariant forall a :: a in instances ==> a in toClass && instances[a] == toClass[a]
      {
        var alias := nodeConfigs[i].alias.value;
        assert toClass[alias] == cfgs[i].node;
        ghost var before := instances;
        var result := RunConfig(i, globalKwargs, run);
        if result.Err? {
          StopsAt(cfgs, i, globalKwargs, toClass, run, results, before, instances, result.error);
          return Err(result.error);
        }
        PrefixStep(cfgs, i, results, result.value, globalKwargs, toClass, run);
        results := results[alias := result.value];
      }
      assert cfgs[..|cfgs|] == cfgs;
      RunRecords(map[], cfgs, globalKwargs, toClass, run);
      return Ok(results);
    }
  }

  /** Running the same executor twice with the same inputs gives the same
      outcome: nothing carries over from one run to the next. */
  method ExecuteTwice(e: MultiNodeExecutor, globalKwargs: Kwargs, run: (UnitClass, Kwargs) -> Result<seq<Value>>)
    returns (first: Result<map<string, seq<Value>>>, second: Result<map<string, seq<Value>>>)
    requires e.Valid()
    modifies e
    ensures first == second
  {
    first := e.ExecuteNodes(globalKwargs, run);
    second := e.ExecuteNodes(globalKwargs, run);
  }
}
