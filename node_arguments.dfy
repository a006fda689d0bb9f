/**
 How the pipeline executor builds the keyword arguments of one node and
 adjusts them before the call, as functions. The executor's methods compute
 the same step by step (see Executor.MultiNodeExecutor).

 Precedence, lowest first: optional-schema defaults, global kwargs for
 declared names, resolved inputs (direct injection or dependency bindings),
 fixed_kwargs.
 */
module NodeArguments {
  import opened Types

  type Kwargs = map<string, Value>

  /** Step 1: the defaults declared by the optional group (reading them
      raises unless every optional entry has an options dict). */
  function OptionalDefaults(s: Schema): Kwargs
  {
    GroupDefaults(GroupOf(s.optional))
  }

  /** Step 2: the global kwargs whose names the unit declares. */
  function GlobalsFor(s: Schema, globals: Kwargs): Kwargs
  {
    map k | k in Declared(s) && k in globals :: globals[k]
  }

  /** Step 3, direct injection: every entry must name a declared parameter;
      its value is stored wrapped as a tuple. */
  function Inject(kw: Kwargs, s: Schema, unitName: string, entries: seq<(string, Value)>): Result<Kwargs>
    decreases |entries|
  {
    if entries == [] then Ok(kw)
    else if entries[0].0 in Declared(s) then
      Inject(kw[entries[0].0 := Wrap(entries[0].1)], s, unitName, entries[1..])
    else Err(InvalidParameter(unitName, entries[0].0))
  }

  /** `names.index(x)`: the first position of x. */
  function IndexOf(names: seq<string>, x: string): (r: nat)
    requires x in names
    ensures r < |names| && names[r] == x
    ensures forall j :: 0 <= j < r ==> names[j] != x
  {
    if names[0] == x then 0 else 1 + IndexOf(names[1..], x)
  }

  /** Binds output outName of source src (whose recorded result is output)
      to parameter inName of the node being prepared. */
  function BindOutput(kw: Kwargs, s: Schema, unitName: string, src: string,
                      returnNames: seq<string>, output: seq<Value>,
                      outName: Value, inName: Value): Result<Kwargs>
  {
    if !outName.Str? || outName.s !in returnNames then Err(OutputNotFound(outName, src))
    else if !inName.Str? || inName.s !in Declared(s) then Err(InvalidInput(unitName, inName))
    else
      var index := IndexOf(returnNames, outName.s);
      if index >= |output| then Err(OutputIndexOutOfRange(src))
      else Ok(kw[inName.s := output[index]])
  }

  /** `for out_name, in_name in dep_spec`: Python's unpacking of one item
      into two names (a 2-character string unpacks into its characters). */
  function Unpack2(v: Value): Option<(Value, Value)>
  {
    match v
    case Tuple(items) => if |items| == 2 then Some((items[0], items[1])) else None
    case List(items) => if |items| == 2 then Some((items[0], items[1])) else None
    case Str(chars) => if |chars| == 2 then Some((Str([chars[0]]), Str([chars[1]]))) else None
    case _ => None
  }

  /** The list form of a binding: (out_name, in_name) pairs, in order. */
  function BindRenames(kw: Kwargs, s: Schema, unitName: string, src: string,
                       returnNames: seq<string>, output: seq<Value>, pairs: seq<Value>): Result<Kwargs>
    decreases |pairs|
  {
    if pairs == [] then Ok(kw)
    else
      match Unpack2(pairs[0])
      case None => Err(UnpackFailed(src))
      case Some(p) =>
        match BindOutput(kw, s, unitName, src, returnNames, output, p.0, p.1)
        case Err(e) => Err(e)
        case Ok(kw') => BindRenames(kw', s, unitName, src, returnNames, output, pairs[1..])
  }

  /** One dependency binding (source_alias, spec). */
  function BindOne(kw: Kwargs, s: Schema, unitName: string, dep: Binding,
                   results: map<string, seq<Value>>, toClass: map<string, UnitClass>): Result<Kwargs>
    requires results.Keys <= toClass.Keys
  {
    if |dep| != 2 then Err(MalformedBinding(unitName))
    else if !dep[0].Str? || dep[0].s !in results then Err(DependencyNotFound(dep[0]))
    else
      var src := dep[0].s;
      var returnNames := toClass[src].returnNames;
      if returnNames.None? then Err(NoReturnNames(src))
      else
        match dep[1]
        case Str(_) => BindOutput(kw, s, unitName, src, returnNames.value, results[src], dep[1], dep[1])
        case List(pairs) => BindRenames(kw, s, unitName, src, returnNames.value, results[src], pairs)
        case _ => Err(InvalidSpec(src))
  }

  /** All bindings, in order; the first failure aborts. */
  function BindAll(kw: Kwargs, s: Schema, unitName: string, deps: seq<Binding>,
                   results: map<string, seq<Value>>, toClass: map<string, UnitClass>): Result<Kwargs>
    requires results.Keys <= toClass.Keys
    decreases |deps|
  {
    if deps == [] then Ok(kw)
    else
      match BindOne(kw, s, unitName, deps[0], results, toClass)
      case Err(e) => Err(e)
      case Ok(kw') => BindAll(kw', s, unitName, deps[1..], results, toClass)
  }

  /** The bindings of a configuration whose inputs are not a dict: a single
      tuple is one binding, an absent entry is the empty list. */
  function Dependencies(inputs: Option<Inputs>): seq<Binding>
  {
    match inputs
    case Some(Single(b)) => [b]
    case Some(Many(bs)) => bs
    case _ => []
  }

  /** Step 3 as a whole. */
  function Resolve(kw: Kwargs, unit: UnitClass, inputs: Option<Inputs>,
                   results: map<string, seq<Value>>, toClass: map<string, UnitClass>): Result<Kwargs>
    requires results.Keys <= toClass.Keys
  {
    if inputs.Some? && inputs.value.Direct? then Inject(kw, unit.schema, unit.name, inputs.value.entries)
    else BindAll(kw, unit.schema, unit.name, Dependencies(inputs), results, toClass)
  }

  /** The keyword arguments prepared for one configuration. */
  function Prepare(cfg: NodeConfig, globals: Kwargs,
                   results: map<string, seq<Value>>, toClass: map<string, UnitClass>): Result<Kwargs>
    requires results.Keys <= toClass.Keys
  {
    var s := cfg.node.schema;
    if !HasOptions(GroupOf(s.optional)) then Err(OptionsMissing(cfg.node.name))
    else
      match Resolve(OptionalDefaults(s) + GlobalsFor(s, globals), cfg.node, cfg.inputs, results, toClass)
      case Err(e) => Err(e)
      case Ok(kw) => Ok(kw + cfg.fixedKwargs)
  }

  // ---------------------------------------------------------------------
  // Resolution only writes: it never reads the kwargs it starts from.

  function Lift(base: Kwargs, r: Result<Kwargs>): Result<Kwargs>
  {
    match r
    case Err(e) => Err(e)
    case Ok(w) => Ok(base + w)
  }

  lemma {:induction false} InjectOnlyWrites(base: Kwargs, kw: Kwargs, s: Schema, unitName: string,
                                           entries: seq<(string, Value)>)
    ensures Inject(base + kw, s, unitName, entries) == Lift(base, Inject(kw, s, unitName, entries))
    ensures Inject(kw, s, unitName, entries).Ok? ==>
      Inject(kw, s, unitName, entries).value.Keys <= kw.Keys + Declared(s)
    decreases |entries|
  {
    if entries != [] && entries[0].0 in Declared(s) {
      var (p, v) := entries[0];
      assert (base + kw)[p := Wrap(v)] == base + kw[p := Wrap(v)];
      InjectOnlyWrites(base, kw[p := Wrap(v)], s, unitName, entries[1..]);
    }
  }

  lemma BindOutputOnlyWrites(base: Kwargs, kw: Kwargs, s: Schema, unitName: string, src: string,
                             returnNames: seq<string>, output: seq<Value>, outName: Value, inName: Value)
    ensures BindOutput(base + kw, s, unitName, src, returnNames, output, outName, inName)
         == Lift(base, BindOutput(kw, s, unitName, src, returnNames, output, outName, inName))
    ensures BindOutput(kw, s, unitName, src, returnNames, output, outName, inName).Ok? ==>
      BindOutput(kw, s, unitName, src, returnNames, output, outName, inName).value.Keys <= kw.Keys + Declared(s)
  {
    if outName.Str? && outName.s in returnNames && inName.Str? && inName.s in Declared(s) {
      var index := IndexOf(returnNames, outName.s);
      if index < |output| {
        assert (base + kw)[inName.s := output[index]] == base + kw[inName.s := output[index]];
      }
    }
  }

  lemma {:induction false} BindRenamesOnlyWrites(base: Kwargs, kw: Kwargs, s: Schema, unitName: string, src: string,
                                                returnNames: seq<string>, output: seq<Value>, pairs: seq<Value>)
    ensures BindRenames(base + kw, s, unitName, src, returnNames, output, pairs)
         == Lift(base, BindRenames(kw, s, unitName, src, returnNames, output, pairs))
    ensures BindRenames(kw, s, unitName, src, returnNames, output, pairs).Ok? ==>
      BindRenames(kw, s, unitName, src, returnNames, output, pairs).value.Keys <= kw.Keys + Declared(s)
    decreases |pairs|
  {
    if pairs != [] && Unpack2(pairs[0]).Some? {
      var p := Unpack2(pairs[0]).value;
      BindOutputOnlyWrites(base, kw, s, unitName, src, returnNames, output, p.0, p.1);
      var r := BindOutput(kw, s, unitName, src, returnNames, output, p.0, p.1);
      if r.Ok? {
        BindRenamesOnlyWrites(base, r.value, s, unitName, src, returnNames, output, pairs[1..]);
      }
    }
  }

  lemma BindOneOnlyWrites(base: Kwargs, kw: Kwargs, s: Schema, unitName: string, dep: Binding,
                          results: map<string, seq<Value>>, toClass: map<string, UnitClass>)
    requires results.Keys <= toClass.Keys
    ensures BindOne(base + kw, s, unitName, dep, results, toClass)
         == Lift(base, BindOne(kw, s, unitName, dep, results, toClass))
    ensures BindOne(kw, s, unitName, dep, results, toClass).Ok? ==>
      BindOne(kw, s, unitName, dep, results, toClass).value.Keys <= kw.Keys + Declared(s)
  {
    if |dep| == 2 && dep[0].Str? && dep[0].s in results && toClass[dep[0].s].returnNames.Some? {
      var src := dep[0].s;
      var rn := toClass[src].returnNames.value;
      match dep[1]
      case Str(_) =>
        BindOutputOnlyWrites(base, kw, s, unitName, src, rn, results[src], dep[1], dep[1]);
      case List(pairs) =>
        BindRenamesOnlyWrites(base, kw, s, unitName, src, rn, results[src], pairs);
      case _ =>
    }
  }

  lemma {:induction false} BindAllOnlyWrites(base: Kwargs, kw: Kwargs, s: Schema, unitName: string, deps: seq<Binding>,
                                            results: map<string, seq<Value>>, toClass: map<string, UnitClass>)
    requires results.Keys <= toClass.Keys
    ensures BindAll(base + kw, s, unitName, deps, results, toClass)
         == Lift(base, BindAll(kw, s, unitName, deps, results, toClass))
    ensures BindAll(kw, s, unitName, deps, results, toClass).Ok? ==>
      BindAll(kw, s, unitName, deps, results, toClass).value.Keys <= kw.Keys + Declared(s)
    decreases |deps|
  {
    if deps != [] {
      BindOneOnlyWrites(base, kw, s, unitName, deps[0], results, toClass);
      var r := BindOne(kw, s, unitName, deps[0], results, toClass);
      if r.Ok? {
        BindAllOnlyWrites(base, r.value, s, unitName, deps[1..], results, toClass);
      }
    }
  }

  /** Resolving the inputs overrides the kwargs it starts from with a map of
      writes that depends only on the inputs, and writes declared names only. */
  lemma ResolveOnlyWrites(base: Kwargs, unit: UnitClass, inputs: Option<Inputs>,
                          results: map<string, seq<Value>>, toClass: map<string, UnitClass>)
    requires results.Keys <= toClass.Keys
    ensures Resolve(base, unit, inputs, results, toClass) == Lift(base, Resolve(map[], unit, inputs, results, toClass))
    ensures Resolve(map[], unit, inputs, results, toClass).Ok? ==>
      Resolve(map[], unit, inputs, results, toClass).value.Keys <= Declared(unit.schema)
  {
    assert base + map[] == base;
    if inputs.Some? && inputs.value.Direct? {
      InjectOnlyWrites(base, map[], unit.schema, unit.name, inputs.value.entries);
    } else {
      BindAllOnlyWrites(base, map[], unit.schema, unit.name, Dependencies(inputs), results, toClass);
    }
  }

  /** The precedence of the four sources of a node's kwargs: each later
      source overrides the earlier ones, global kwargs reach declared names
      only, and fixed_kwargs are applied unchecked. */
  lemma Precedence(cfg: NodeConfig, globals: Kwargs,
                   results: map<string, seq<Value>>, toClass: map<string, UnitClass>)
    requires results.Keys <= toClass.Keys
    requires Prepare(cfg, globals, results, toClass).Ok?
    ensures HasOptions(GroupOf(cfg.node.schema.optional))
    ensures Resolve(map[], cfg.node, cfg.inputs, results, toClass).Ok?
    ensures var s := cfg.node.schema;
            var w := Resolve(map[], cfg.node, cfg.inputs, results, toClass).value;
            && w.Keys <= Declared(s)
            && Prepare(cfg, globals, results, toClass).value
               == OptionalDefaults(s) + GlobalsFor(s, globals) + w + cfg.fixedKwargs
  {
    var s := cfg.node.schema;
    ResolveOnlyWrites(OptionalDefaults(s) + GlobalsFor(s, globals), cfg.node, cfg.inputs, results, toClass);
  }

  /** Where each prepared argument comes from, key by key. */
  lemma ArgumentSource(cfg: NodeConfig, globals: Kwargs,
                       results: map<string, seq<Value>>, toClass: map<string, UnitClass>, k: string)
    requires results.Keys <= toClass.Keys
    requires Prepare(cfg, globals, results, toClass).Ok?
    ensures Resolve(map[], cfg.node, cfg.inputs, results, toClass).Ok?
    ensures var s := cfg.node.schema;
            var opt := GroupOf(s.optional);
            var w := Resolve(map[], cfg.node, cfg.inputs, results, toClass).value;
            var kw := Prepare(cfg, globals, results, toClass).value;
            && (k in kw <==> k in cfg.fixedKwargs || k in w || (k in Declared(s) && k in globals)
                             || HasDefault(opt, k))
            && (k !in Declared(s) ==> (k in kw <==> k in cfg.fixedKwargs))
            && (k in cfg.fixedKwargs ==> kw[k] == cfg.fixedKwargs[k])
            && (k !in cfg.fixedKwargs && k in w ==> kw[k] == w[k])
            && (k !in cfg.fixedKwargs && k !in w && k in Declared(s) && k in globals ==> kw[k] == globals[k])
            && ((k !in cfg.fixedKwargs && k !in w && !(k in Declared(s) && k in globals)
                 && HasDefault(opt, k)) ==> kw[k] == opt[k].options.value["default"])
  {
    Precedence(cfg, globals, results, toClass);
  }

  /** An optional entry without an options dict makes preparation raise
      before any input is looked at (`v[1]` of a one-element tuple); the
      required group is never read that way. */
  lemma MissingOptionsFail(cfg: NodeConfig, globals: Kwargs,
                           results: map<string, seq<Value>>, toClass: map<string, UnitClass>)
    requires results.Keys <= toClass.Keys
    ensures Prepare(cfg, globals, results, toClass).Ok? ==> HasOptions(GroupOf(cfg.node.schema.optional))
    ensures !HasOptions(GroupOf(cfg.node.schema.optional)) ==>
      Prepare(cfg, globals, results, toClass) == Err(OptionsMissing(cfg.node.name))
  {
  }

  // ---------------------------------------------------------------------
  // Direct injection.

  /** The parameter names of direct-injection entries. */
  function EntryKeys(entries: seq<(string, Value)>): set<string>
    decreases |entries|
  {
    if entries == [] then {} else {entries[0].0} + EntryKeys(entries[1..])
  }

  lemma {:induction false} EntryKeysMembership(entries: seq<(string, Value)>, k: string)
    ensures k in EntryKeys(entries) <==> exists i :: 0 <= i < |entries| && entries[i].0 == k
    decreases |entries|
  {
    if entries != [] {
      EntryKeysMembership(entries[1..], k);
      if k in EntryKeys(entries[1..]) {
        var i :| 0 <= i < |entries| - 1 && entries[1..][i].0 == k;
        assert entries[i + 1].0 == k;
      }
      if exists i :: 0 <= i < |entries| && entries[i].0 == k {
        var i :| 0 <= i < |entries| && entries[i].0 == k;
        if i > 0 { assert entries[1..][i - 1].0 == k; }
      }
    }
  }

  /** Python dicts have distinct keys. */
  predicate DistinctKeys(entries: seq<(string, Value)>)
  {
    forall i, j :: 0 <= i < j < |entries| ==> entries[i].0 != entries[j].0
  }

  /** Direct injection succeeds exactly when every entry names a declared
      parameter, and otherwise fails naming the first one that does not. */
  lemma {:induction false} InjectFailsIff(kw: Kwargs, s: Schema, unitName: string, entries: seq<(string, Value)>)
    ensures Inject(kw, s, unitName, entries).Ok? <==>
      forall i :: 0 <= i < |entries| ==> entries[i].0 in Declared(s)
    ensures Inject(kw, s, unitName, entries).Err? ==>
      exists i :: 0 <= i < |entries| && entries[i].0 !in Declared(s) &&
        (forall j :: 0 <= j < i ==> entries[j].0 in Declared(s)) &&
        Inject(kw, s, unitName, entries).error == InvalidParameter(unitName, entries[i].0)
    decreases |entries|
  {
    if entries != [] {
      var (p, v) := entries[0];
      var rest := entries[1..];
      if p in Declared(s) {
        InjectFailsIff(kw[p := Wrap(v)], s, unitName, rest);
        assert forall i :: 0 < i < |entries| ==> entries[i] == rest[i - 1];
        if Inject(kw, s, unitName, entries).Err? {
          var i :| 0 <= i < |rest| && rest[i].0 !in Declared(s) &&
            (forall j :: 0 <= j < i ==> rest[j].0 in Declared(s)) &&
            Inject(kw, s, unitName, entries).error == InvalidParameter(unitName, rest[i].0);
          assert entries[i + 1].0 !in Declared(s);
        }
      }
    }
  }

  /** On success each injected parameter holds its value wrapped as a
      tuple, and every other kwarg is untouched. */
  lemma {:induction false} InjectWrites(kw: Kwargs, s: Schema, unitName: string, entries: seq<(string, Value)>)
    requires DistinctKeys(entries)
    requires Inject(kw, s, unitName, entries).Ok?
    ensures var r := Inject(kw, s, unitName, entries).value;
      && r.Keys == kw.Keys + EntryKeys(entries)
      && (forall i :: 0 <= i < |entries| ==> entries[i].0 in r && r[entries[i].0] == Wrap(entries[i].1))
      && (forall k :: k in kw && k !in EntryKeys(entries) ==> r[k] == kw[k])
    decreases |entries|
  {
    if entries != [] {
      var (p, v) := entries[0];
      var rest := entries[1..];
      assert forall i :: 0 < i < |entries| ==> entries[i] == rest[i - 1];
      InjectWrites(kw[p := Wrap(v)], s, unitName, rest);
      var r := Inject(kw, s, unitName, entries).value;
      forall i | 0 <= i < |entries| ensures entries[i].0 in r && r[entries[i].0] == Wrap(entries[i].1) {
        if i == 0 {
          EntryKeysMembership(rest, p);
        }
      }
    }
  }

  // ---------------------------------------------------------------------
  // Dependency bindings.

  /** A binding by a single output name targets the parameter of the same
      name and binds the source's recorded output at the first position of
      that name in the source's RETURN_NAMES; each failed condition raises. */
  lemma ByNameBinding(kw: Kwargs, s: Schema, unitName: string, src: string, name: string,
                      results: map<string, seq<Value>>, toClass: map<string, UnitClass>)
    requires results.Keys <= toClass.Keys
    ensures var r := BindOne(kw, s, unitName, [Str(src), Str(name)], results, toClass);
      && (src !in results ==> r == Err(DependencyNotFound(Str(src))))
      && (src in results && toClass[src].returnNames.None? ==> r == Err(NoReturnNames(src)))
      && (src in results && toClass[src].returnNames.Some? && name !in toClass[src].returnNames.value ==>
            r == Err(OutputNotFound(Str(name), src)))
      && ((src in results && toClass[src].returnNames.Some? && name in toClass[src].returnNames.value
           && name !in Declared(s)) ==> r == Err(InvalidInput(unitName, Str(name))))
      && (r.Ok? <==>
            && src in results
            && toClass[src].returnNames.Some?
            && name in toClass[src].returnNames.value
            && name in Declared(s)
            && IndexOf(toClass[src].returnNames.value, name) < |results[src]|)
      && (r.Ok? ==> r.value == kw[name := results[src][IndexOf(toClass[src].returnNames.value, name)]])
  {
  }

  /** A binding in list form renames: (out_name, in_name) binds the source's
      output out_name to the parameter in_name. */
  lemma RenamingBinding(kw: Kwargs, s: Schema, unitName: string, src: string, outName: string, inName: string,
                        results: map<string, seq<Value>>, toClass: map<string, UnitClass>)
    requires results.Keys <= toClass.Keys
    requires src in results && toClass[src].returnNames.Some?
    requires outName in toClass[src].returnNames.value && inName in Declared(s)
    requires IndexOf(toClass[src].returnNames.value, outName) < |results[src]|
    ensures BindOne(kw, s, unitName, [Str(src), List([Tuple([Str(outName), Str(inName)])])], results, toClass)
         == Ok(kw[inName := results[src][IndexOf(toClass[src].returnNames.value, outName)]])
  {
    var pairs := [Tuple([Str(outName), Str(inName)])];
    var rn := toClass[src].returnNames.value;
    assert Unpack2(pairs[0]) == Some((Str(outName), Str(inName)));
    var kw' := kw[inName := results[src][IndexOf(rn, outName)]];
    assert BindOutput(kw, s, unitName, src, rn, results[src], Str(outName), Str(inName)) == Ok(kw');
    assert pairs[1..] == [];
    assert BindRenames(kw', s, unitName, src, rn, results[src], pairs[1..]) == Ok(kw');
  }

  /** What makes one renaming pair raise, in the order its checks run:
      it does not unpack into two parts, its output name is not among
      RETURN_NAMES, its parameter is not declared, or the output is shorter
      than the output name's position. None when the pair binds. */
  function PairError(p: Value, s: Schema, unitName: string, src: string,
                     returnNames: seq<string>, output: seq<Value>): Option<Error>
  {
    match Unpack2(p)
    case None => Some(UnpackFailed(src))
    case Some(q) =>
      if !q.0.Str? || q.0.s !in returnNames then Some(OutputNotFound(q.0, src))
      else if !q.1.Str? || q.1.s !in Declared(s) then Some(InvalidInput(unitName, q.1))
      else if IndexOf(returnNames, q.0.s) >= |output| then Some(OutputIndexOutOfRange(src))
      else None
  }

  /** The parameter a renaming pair targets ("" when it has none). */
  function PairTarget(p: Value): string
  {
    if Unpack2(p).Some? && Unpack2(p).value.1.Str? then Unpack2(p).value.1.s else ""
  }

  /** The output a binding pair reads: the source's output at the first
      position of its output name in RETURN_NAMES. */
  function PairValue(p: Value, s: Schema, unitName: string, src: string,
                     returnNames: seq<string>, output: seq<Value>): Value
    requires PairError(p, s, unitName, src, returnNames, output).None?
  {
    output[IndexOf(returnNames, Unpack2(p).value.0.s)]
  }

  /** A list of renaming pairs binds exactly when every pair binds, and
      otherwise raises the error of the first pair that does not. */
  lemma {:induction false} RenamesFailIff(kw: Kwargs, s: Schema, unitName: string, src: string,
                                         returnNames: seq<string>, output: seq<Value>, pairs: seq<Value>)
    ensures BindRenames(kw, s, unitName, src, returnNames, output, pairs).Ok? <==>
      forall i :: 0 <= i < |pairs| ==> PairError(pairs[i], s, unitName, src, returnNames, output).None?
    ensures BindRenames(kw, s, unitName, src, returnNames, output, pairs).Err? ==>
      exists i :: 0 <= i < |pairs| &&
        (forall j :: 0 <= j < i ==> PairError(pairs[j], s, unitName, src, returnNames, output).None?) &&
        PairError(pairs[i], s, unitName, src, returnNames, output)
          == Some(BindRenames(kw, s, unitName, src, returnNames, output, pairs).error)
    decreases |pairs|
  {
    if pairs != [] {
      var rest := pairs[1..];
      assert forall i :: 0 < i < |pairs| ==> pairs[i] == rest[i - 1];
      if PairError(pairs[0], s, unitName, src, returnNames, output).None? {
        var q := Unpack2(pairs[0]).value;
        var kw' := BindOutput(kw, s, unitName, src, returnNames, output, q.0, q.1).value;
        RenamesFailIff(kw', s, unitName, src, returnNames, output, rest);
        var r := BindRenames(kw, s, unitName, src, returnNames, output, pairs);
        assert r == BindRenames(kw', s, unitName, src, returnNames, output, rest);
        if r.Err? {
          var i :| 0 <= i < |rest| &&
            (forall j :: 0 <= j < i ==> PairError(rest[j], s, unitName, src, returnNames, output).None?) &&
            PairError(rest[i], s, unitName, src, returnNames, output) == Some(r.error);
          assert PairError(pairs[i + 1], s, unitName, src, returnNames, output) == Some(r.error);
        }
      }
    }
  }

  /** On success, a name bound by some pair holds the output read by the
      last pair targeting it (later pairs win), and every other kwarg is
      untouched. */
  lemma RenamesWrite(kw: Kwargs, s: Schema, unitName: string, src: string,
                     returnNames: seq<string>, output: seq<Value>, pairs: seq<Value>, k: string)
    requires BindRenames(kw, s, unitName, src, returnNames, output, pairs).Ok?
    ensures forall i :: 0 <= i < |pairs| ==> PairError(pairs[i], s, unitName, src, returnNames, output).None?
    ensures var r := BindRenames(kw, s, unitName, src, returnNames, output, pairs).value;
      && (k in r <==> k in kw || exists i :: 0 <= i < |pairs| && PairTarget(pairs[i]) == k)
      && ((forall i :: 0 <= i < |pairs| ==> PairTarget(pairs[i]) != k) && k in kw ==> r[k] == kw[k])
      && (forall i :: (0 <= i < |pairs| && PairTarget(pairs[i]) == k &&
                       (forall j :: i < j < |pairs| ==> PairTarget(pairs[j]) != k)) ==>
            k in r && r[k] == PairValue(pairs[i], s, unitName, src, returnNames, output))
  {
    RenamesFailIff(kw, s, unitName, src, returnNames, output, pairs);
    RenamesKeys(kw, s, unitName, src, returnNames, output, pairs, k);
    forall i | 0 <= i < |pairs| && PairTarget(pairs[i]) == k &&
               (forall j :: i < j < |pairs| ==> PairTarget(pairs[j]) != k)
      ensures k in BindRenames(kw, s, unitName, src, returnNames, output, pairs).value
      ensures BindRenames(kw, s, unitName, src, returnNames, output, pairs).value[k]
              == PairValue(pairs[i], s, unitName, src, returnNames, output)
    {
      RenamesLastWins(kw, s, unitName, src, returnNames, output, pairs, k, i);
    }
  }

  /** The first pair binds its target to the output it reads. */
  lemma RenamesHead(kw: Kwargs, s: Schema, unitName: string, src: string,
                    returnNames: seq<string>, output: seq<Value>, pairs: seq<Value>)
    requires pairs != []
    requires BindRenames(kw, s, unitName, src, returnNames, output, pairs).Ok?
    ensures PairError(pairs[0], s, unitName, src, returnNames, output).None?
    ensures BindRenames(kw, s, unitName, src, returnNames, output, pairs)
         == BindRenames(kw[PairTarget(pairs[0]) := PairValue(pairs[0], s, unitName, src, returnNames, output)],
                        s, unitName, src, returnNames, output, pairs[1..])
  {
  }

  /** The names bound by a list of pairs; the others keep their values. */
  lemma {:induction false} RenamesKeys(kw: Kwargs, s: Schema, unitName: string, src: string,
                                      returnNames: seq<string>, output: seq<Value>, pairs: seq<Value>, k: string)
    requires BindRenames(kw, s, unitName, src, returnNames, output, pairs).Ok?
    ensures var r := BindRenames(kw, s, unitName, src, returnNames, output, pairs).value;
      && (k in r <==> k in kw || exists i :: 0 <= i < |pairs| && PairTarget(pairs[i]) == k)
      && ((forall i :: 0 <= i < |pairs| ==> PairTarget(pairs[i]) != k) && k in kw ==> r[k] == kw[k])
    decreases |pairs|
  {
    if pairs != [] {
      var rest := pairs[1..];
      RenamesHead(kw, s, unitName, src, returnNames, output, pairs);
      var kw' := kw[PairTarget(pairs[0]) := PairValue(pairs[0], s, unitName, src, returnNames, output)];
      RenamesKeys(kw', s, unitName, src, returnNames, output, rest, k);
      if exists i :: 0 <= i < |rest| && PairTarget(rest[i]) == k {
        var i :| 0 <= i < |rest| && PairTarget(rest[i]) == k;
        assert pairs[i + 1] == rest[i];
      }
      if exists i :: 0 <= i < |pairs| && PairTarget(pairs[i]) == k {
        var i :| 0 <= i < |pairs| && PairTarget(pairs[i]) == k;
        if i > 0 { assert rest[i - 1] == pairs[i]; }
      }
    }
  }

  /** The last pair targeting a name decides its value. */
  lemma {:induction false} RenamesLastWins(kw: Kwargs, s: Schema, unitName: string, src: string,
                                          returnNames: seq<string>, output: seq<Value>, pairs: seq<Value>,
                                          k: string, i: nat)
    requires BindRenames(kw, s, unitName, src, returnNames, output, pairs).Ok?
    requires i < |pairs| && PairTarget(pairs[i]) == k
    requires forall j :: i < j < |pairs| ==> PairTarget(pairs[j]) != k
    ensures PairError(pairs[i], s, unitName, src, returnNames, output).None?
    ensures var r := BindRenames(kw, s, unitName, src, returnNames, output, pairs).value;
      k in r && r[k] == PairValue(pairs[i], s, unitName, src, returnNames, output)
    decreases i
  {
    var rest := pairs[1..];
    RenamesHead(kw, s, unitName, src, returnNames, output, pairs);
    var kw' := kw[PairTarget(pairs[0]) := PairValue(pairs[0], s, unitName, src, returnNames, output)];
    forall j | 0 <= j < |rest| ensures rest[j] == pairs[j + 1] { }
    if i == 0 {
      RenamesKeys(kw', s, unitName, src, returnNames, output, rest, k);
    } else {
      RenamesLastWins(kw', s, unitName, src, returnNames, output, rest, k, i - 1);
    }
  }

  /** Malformed bindings raise before anything is bound. */
  lemma MalformedBindingsFail(kw: Kwargs, s: Schema, unitName: string, dep: Binding,
                              results: map<string, seq<Value>>, toClass: map<string, UnitClass>)
    requires results.Keys <= toClass.Keys
    ensures |dep| != 2 ==> BindOne(kw, s, unitName, dep, results, toClass) == Err(MalformedBinding(unitName))
    ensures |dep| == 2 && dep[0].Str? && dep[0].s in results && toClass[dep[0].s].returnNames.Some?
            && !dep[1].Str? && !dep[1].List? ==>
              BindOne(kw, s, unitName, dep, results, toClass) == Err(InvalidSpec(dep[0].s))
  {
  }

  /** Some recorded result contains v. */
  ghost predicate RecordedOutput(results: map<string, seq<Value>>, v: Value)
  {
    exists a :: a in results && v in results[a]
  }

  /** Everything bindings write is a declared parameter holding a value
      taken from the results recorded so far. */
  ghost predicate BoundFrom(kw: Kwargs, r: Kwargs, s: Schema, results: map<string, seq<Value>>)
  {
    forall k :: k in r ==>
      (k in kw && r[k] == kw[k]) || (k in Declared(s) && RecordedOutput(results, r[k]))
  }

  lemma BindOutputFromResults(kw: Kwargs, s: Schema, unitName: string, src: string,
                              returnNames: seq<string>, results: map<string, seq<Value>>,
                              outName: Value, inName: Value)
    requires src in results
    requires BindOutput(kw, s, unitName, src, returnNames, results[src], outName, inName).Ok?
    ensures BoundFrom(kw, BindOutput(kw, s, unitName, src, returnNames, results[src], outName, inName).value, s, results)
  {
    var index := IndexOf(returnNames, outName.s);
    assert results[src][index] in results[src];
  }

  lemma {:induction false} BindRenamesFromResults(kw: Kwargs, s: Schema, unitName: string, src: string,
                                                 returnNames: seq<string>, results: map<string, seq<Value>>,
                                                 pairs: seq<Value>)
    requires src in results
    requires BindRenames(kw, s, unitName, src, returnNames, results[src], pairs).Ok?
    ensures BoundFrom(kw, BindRenames(kw, s, unitName, src, returnNames, results[src], pairs).value, s, results)
    decreases |pairs|
  {
    if pairs != [] {
      var p := Unpack2(pairs[0]).value;
      var kw' := BindOutput(kw, s, unitName, src, returnNames, results[src], p.0, p.1).value;
      BindOutputFromResults(kw, s, unitName, src, returnNames, results, p.0, p.1);
      BindRenamesFromResults(kw', s, unitName, src, returnNames, results, pairs[1..]);
    }
  }

  /** Bindings only ever store outputs of nodes that already have results. */
  lemma {:induction false} BindAllFromResults(kw: Kwargs, s: Schema, unitName: string, deps: seq<Binding>,
                                             results: map<string, seq<Value>>, toClass: map<string, UnitClass>)
    requires results.Keys <= toClass.Keys
    requires BindAll(kw, s, unitName, deps, results, toClass).Ok?
    ensures BoundFrom(kw, BindAll(kw, s, unitName, deps, results, toClass).value, s, results)
    decreases |deps|
  {
    if deps != [] {
      var dep := deps[0];
      var kw' := BindOne(kw, s, unitName, dep, results, toClass).value;
      var src := dep[0].s;
      var rn := toClass[src].returnNames.value;
      if dep[1].Str? {
        BindOutputFromResults(kw, s, unitName, src, rn, results, dep[1], dep[1]);
      } else {
        BindRenamesFromResults(kw, s, unitName, src, rn, results, dep[1].items);
      }
      BindAllFromResults(kw', s, unitName, deps[1..], results, toClass);
    }
  }

  // ---------------------------------------------------------------------
  // The checks and the coercion before a node is called.

  /** `params['required'].get(param, params['optional'].get(param))` */
  function ParamInfo(s: Schema, k: string): Option<Param>
  {
    if k in GroupOf(s.required) then Some(GroupOf(s.required)[k])
    else if k in GroupOf(s.optional) then Some(GroupOf(s.optional)[k])
    else None
  }

  /** A tuple given to a declared parameter whose kind is not a list/tuple
      of choices is replaced by its first element (None: the tuple is empty
      and indexing it raises). */
  function CoerceValue(v: Value, info: Option<Param>): Option<Value>
  {
    if info.Some? && v.Tuple? && !info.value.kind.Choices? then
      if v.items == [] then None else Some(v.items[0])
    else Some(v)
  }

  predicate Coercible(kw: Kwargs, s: Schema)
  {
    forall k :: k in kw ==> CoerceValue(kw[k], ParamInfo(s, k)).Some?
  }

  /** The missing-parameter check followed by the coercion pass. */
  function Adjust(kw: Kwargs, s: Schema, alias: string): Result<Kwargs>
  {
    if !(GroupOf(s.required).Keys <= kw.Keys) then
      Err(MissingRequired(alias, GroupOf(s.required).Keys - kw.Keys))
    else if !Coercible(kw, s) then Err(EmptyTupleArgument(alias))
    else Ok(map k | k in kw :: CoerceValue(kw[k], ParamInfo(s, k)).value)
  }

  /** The call fails on a missing required parameter exactly when one is
      missing, reporting all of them; otherwise it fails only on an empty
      tuple given to a declared non-choice parameter. On success the keys
      are kept, such a tuple becomes its first element and every other
      value passes unchanged. */
  lemma AdjustMeaning(kw: Kwargs, s: Schema, alias: string)
    ensures var r := Adjust(kw, s, alias);
      && (r.Err? && r.error.MissingRequired? <==> !(GroupOf(s.required).Keys <= kw.Keys))
      && (r.Err? && r.error.MissingRequired? ==>
            r.error == MissingRequired(alias, GroupOf(s.required).Keys - kw.Keys))
      && (r.Err? && r.error.EmptyTupleArgument? <==>
            GroupOf(s.required).Keys <= kw.Keys &&
            exists k :: k in kw && kw[k].Tuple? && kw[k].items == [] && k in Declared(s) &&
              !ParamInfo(s, k).value.kind.Choices?)
      && (r.Ok? ==> r.value.Keys == kw.Keys)
      && (r.Ok? ==> forall k :: k in kw ==>
            if kw[k].Tuple? && k in Declared(s) && !ParamInfo(s, k).value.kind.Choices?
            then r.value[k] == kw[k].items[0]
            else r.value[k] == kw[k])
  {
  }

  /** Coercion undoes the wrapping of direct injection for a parameter of
      a named kind, and keeps the tuple for a list/tuple kind. */
  lemma CoerceAfterWrap(v: Value, p: Param)
    requires !v.Tuple?
    ensures p.kind.Named? ==> CoerceValue(Wrap(v), Some(p)) == Some(v)
    ensures p.kind.Choices? ==> CoerceValue(Wrap(v), Some(p)) == Some(Tuple([v]))
  {
  }
}
