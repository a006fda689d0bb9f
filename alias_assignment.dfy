/**
 Alias assignment of the pipeline executor, as a function of the prefix of
 node configurations processed so far. The executor's constructor runs the
 same steps as a loop (see Executor.MultiNodeExecutor.New).
 */
module AliasAssignment {
  import opened Types
  import Decimal

  /** f"{base}_{n}" */
  function Suffixed(base: string, n: nat): string
  {
    base + "_" + Decimal.NatToString(n)
  }

  /** The alias proposed for counter value n: the bare class name for 1,
      the suffixed name otherwise. */
  function Candidate(base: string, n: nat): string
  {
    if n == 1 then base else Suffixed(base, n)
  }

  lemma CandidateInjective(base: string, j: nat, k: nat)
    requires 1 <= j && 1 <= k
    requires Candidate(base, j) == Candidate(base, k)
    ensures j == k
  {
    if j != 1 && k != 1 {
      var p := |base| + 1;
      assert Decimal.NatToString(j) == Suffixed(base, j)[p..];
      assert Decimal.NatToString(k) == Suffixed(base, k)[p..];
      Decimal.FormatInjective(j, k);
    }
  }

  /** A candidate for a counter value below c. */
  ghost predicate ProbedBelow(base: string, c: nat, key: string)
  {
    exists j :: 1 <= j < c && Candidate(base, j) == key
  }

  /** The taken names the collision loop has not yet stepped over. */
  ghost function Unexplored(base: string, c: nat, taken: set<string>): set<string>
  {
    set key | key in taken && !ProbedBelow(base, c, key)
  }

  lemma UnexploredShrinks(base: string, c: nat, taken: set<string>)
    requires c >= 1
    requires Candidate(base, c) in taken
    ensures |Unexplored(base, c + 1, taken)| < |Unexplored(base, c, taken)|
  {
    var now, next := Unexplored(base, c, taken), Unexplored(base, c + 1, taken);
    var hit := Candidate(base, c);
    if ProbedBelow(base, c, hit) {
      var j :| 1 <= j < c && Candidate(base, j) == hit;
      CandidateInjective(base, j, c);
    }
    assert hit in now;
    forall key | key in next ensures key in now - {hit} {
      ProbedGrows(base, c, key);
    }
    assert ProbedBelow(base, c + 1, hit);
    assert next <= now - {hit};
    assert |now - {hit}| == |now| - 1;
    assert |next| <= |now - {hit}| by {
      SubsetCard(next, now - {hit});
    }
  }

  lemma ProbedGrows(base: string, c: nat, key: string)
    ensures ProbedBelow(base, c, key) ==> ProbedBelow(base, c + 1, key)
  {
    if ProbedBelow(base, c, key) {
      var j :| 1 <= j < c && Candidate(base, j) == key;
      assert 1 <= j < c + 1;
    }
  }

  lemma SubsetCard<T>(a: set<T>, b: set<T>)
    requires a <= b
    ensures |a| <= |b|
  {
    assert b == a + (b - a);
  }

  /** The collision loop: starting from counter value c, the first counter
      value whose candidate is not taken. It terminates because only
      finitely many names are taken and the candidates are pairwise distinct. */
  function FirstFree(base: string, c: nat, taken: set<string>): (k: nat)
    requires c >= 1
    ensures k >= c
    ensures Candidate(base, k) !in taken
    ensures forall j :: c <= j < k ==> Candidate(base, j) in taken
    decreases |Unexplored(base, c, taken)|
  {
    if Candidate(base, c) !in taken then c
    else
      UnexploredShrinks(base, c, taken);
      FirstFree(base, c + 1, taken)
  }

  /** The state of the constructor's loop: alias_counter, alias_to_class
      and the aliases given so far, in configuration order. */
  datatype AliasTable = AliasTable(
    counter: map<string, nat>,
    toClass: map<string, UnitClass>,
    aliases: seq<string>)

  /** `if alias:` -- an absent or empty alias counts as no alias. */
  function ExplicitAlias(cfg: NodeConfig): Option<string>
  {
    if cfg.alias.Some? && cfg.alias.value != "" then cfg.alias else None
  }

  function CountOf(counter: map<string, nat>, base: string): nat
  {
    if base in counter then counter[base] else 0
  }

  /** One iteration of the constructor's loop. */
  function RegisterOne(t: AliasTable, cfg: NodeConfig): Result<AliasTable>
  {
    match ExplicitAlias(cfg)
    case Some(a) =>
      if a in t.toClass then Err(DuplicateAlias(a))
      else Ok(AliasTable(t.counter, t.toClass[a := cfg.node], t.aliases + [a]))
    case None =>
      var base := cfg.node.name;
      var k := FirstFree(base, CountOf(t.counter, base) + 1, t.toClass.Keys);
      var a := Candidate(base, k);
      Ok(AliasTable(t.counter[base := k], t.toClass[a := cfg.node], t.aliases + [a]))
  }

  /** The constructor's loop over a whole list of configurations. */
  function Register(cfgs: seq<NodeConfig>): (r: Result<AliasTable>)
    ensures r.Ok? ==> |r.value.aliases| == |cfgs|
    decreases |cfgs|
  {
    if cfgs == [] then Ok(AliasTable(map[], map[], []))
    else
      match Register(cfgs[..|cfgs| - 1])
      case Err(e) => Err(e)
      case Ok(t) => RegisterOne(t, cfgs[|cfgs| - 1])
  }

  /** The configuration stored for a node: the original with its alias set. */
  function WithAlias(cfg: NodeConfig, a: string): NodeConfig
  {
    cfg.(alias := Some(a))
  }

  function StoredConfigs(cfgs: seq<NodeConfig>, aliases: seq<string>): (r: seq<NodeConfig>)
    requires |aliases| == |cfgs|
    ensures |r| == |cfgs|
    ensures forall i :: 0 <= i < |cfgs| ==> r[i] == WithAlias(cfgs[i], aliases[i])
  {
    seq(|cfgs|, i requires 0 <= i < |cfgs| => WithAlias(cfgs[i], aliases[i]))
  }

  /** What the loop keeps true of its state after a prefix of configurations. */
  ghost predicate Consistent(t: AliasTable, cfgs: seq<NodeConfig>)
  {
    && |t.aliases| == |cfgs|
    && Distinct(t.aliases)
    && t.toClass.Keys == (set i | 0 <= i < |t.aliases| :: t.aliases[i])
    && (forall i :: 0 <= i < |cfgs| ==> t.toClass[t.aliases[i]] == cfgs[i].node)
    && (forall i :: 0 <= i < |cfgs| && ExplicitAlias(cfgs[i]).Some? ==>
          t.aliases[i] == ExplicitAlias(cfgs[i]).value)
  }

  lemma RegisterOneConsistent(t: AliasTable, cfgs: seq<NodeConfig>, cfg: NodeConfig)
    requires Consistent(t, cfgs)
    requires RegisterOne(t, cfg).Ok?
    ensures Consistent(RegisterOne(t, cfg).value, cfgs + [cfg])
  {
    var t' := RegisterOne(t, cfg).value;
    var a := t'.aliases[|cfgs|];
    assert a !in t.toClass;
    assert t'.aliases == t.aliases + [a];
    forall i | 0 <= i < |cfgs| ensures t.aliases[i] != a {
      assert t.aliases[i] in t.toClass.Keys;
    }
    assert t'.toClass.Keys == (set i | 0 <= i < |t'.aliases| :: t'.aliases[i]) by {
      forall key | key in t'.toClass.Keys
        ensures exists i :: 0 <= i < |t'.aliases| && t'.aliases[i] == key
      {
        if key == a {
          assert t'.aliases[|cfgs|] == key;
        } else {
          var i :| 0 <= i < |t.aliases| && t.aliases[i] == key;
          assert t'.aliases[i] == key;
        }
      }
    }
  }

  /** Alias assignment produces one alias per configuration, in order,
      pairwise distinct; explicit aliases are kept; the registry maps each
      alias to its configuration's class and holds nothing else. */
  lemma {:induction false} RegisterConsistent(cfgs: seq<NodeConfig>)
    requires Register(cfgs).Ok?
    ensures Consistent(Register(cfgs).value, cfgs)
    decreases |cfgs|
  {
    if cfgs != [] {
      var init := cfgs[..|cfgs| - 1];
      RegisterConsistent(init);
      assert cfgs == init + [cfgs[|cfgs| - 1]];
      RegisterOneConsistent(Register(init).value, init, cfgs[|cfgs| - 1]);
    }
  }

  /** Unfolds Register on a prefix one configuration longer. */
  lemma RegisterStep(cfgs: seq<NodeConfig>, i: nat)
    requires i < |cfgs|
    ensures Register(cfgs[..i + 1]) ==
      match Register(cfgs[..i])
      case Err(e) => Err(e)
      case Ok(t) => RegisterOne(t, cfgs[i])
  {
    assert cfgs[..i + 1][..i] == cfgs[..i];
  }

  /** A successful run succeeds on every prefix, with the prefix of its aliases. */
  lemma {:induction false} RegisterPrefixOk(cfgs: seq<NodeConfig>, p: nat)
    requires p <= |cfgs|
    requires Register(cfgs).Ok?
    ensures Register(cfgs[..p]).Ok?
    ensures Register(cfgs[..p]).value.aliases == Register(cfgs).value.aliases[..p]
    decreases |cfgs| - p
  {
    if p < |cfgs| {
      RegisterPrefixOk(cfgs, p + 1);
      RegisterStep(cfgs, p);
      assert cfgs[..p + 1][..p] == cfgs[..p];
    } else {
      assert cfgs[..p] == cfgs;
    }
  }

  /** The error of a failing prefix is the error of the whole list. */
  lemma {:induction false} RegisterErrSticks(cfgs: seq<NodeConfig>, p: nat)
    requires p <= |cfgs|
    requires Register(cfgs[..p]).Err?
    ensures Register(cfgs) == Register(cfgs[..p])
    decreases |cfgs| - p
  {
    if p < |cfgs| {
      RegisterStep(cfgs, p);
      RegisterErrSticks(cfgs, p + 1);
    } else {
      assert cfgs[..p] == cfgs;
    }
  }

  /** The configuration at index i brings an explicit alias that an earlier
      configuration already holds (whether given explicitly or generated). */
  ghost predicate ClashAt(cfgs: seq<NodeConfig>, i: int)
  {
    && 0 <= i < |cfgs|
    && Register(cfgs[..i]).Ok?
    && ExplicitAlias(cfgs[i]).Some?
    && ExplicitAlias(cfgs[i]).value in Register(cfgs[..i]).value.toClass
  }

  /** The last configuration of a list fails exactly when it clashes with
      the aliases registered before it. */
  lemma RegisterLast(cfgs: seq<NodeConfig>)
    requires cfgs != []
    ensures Register(cfgs[..|cfgs| - 1]).Err? ==> Register(cfgs) == Register(cfgs[..|cfgs| - 1])
    ensures Register(cfgs[..|cfgs| - 1]).Ok? ==>
      && (Register(cfgs).Err? <==> ClashAt(cfgs, |cfgs| - 1))
      && (Register(cfgs).Err? ==> Register(cfgs).error == DuplicateAlias(ExplicitAlias(cfgs[|cfgs| - 1]).value))
  {
  }

  /** A clash before position n is a clash of the first n configurations. */
  lemma ClashPrefix(cfgs: seq<NodeConfig>, n: nat)
    requires n <= |cfgs|
    ensures forall i :: 0 <= i < n ==> (ClashAt(cfgs[..n], i) <==> ClashAt(cfgs, i))
    ensures forall i :: ClashAt(cfgs[..n], i) ==> i < n
  {
    forall i | 0 <= i < n ensures ClashAt(cfgs[..n], i) <==> ClashAt(cfgs, i) {
      assert cfgs[..n][..i] == cfgs[..i];
    }
  }

  /** Alias assignment fails exactly when some configuration's explicit alias
      is already registered, and then with DuplicateAlias for that alias. */
  lemma {:induction false} RegisterFailsIff(cfgs: seq<NodeConfig>)
    ensures Register(cfgs).Err? <==> exists i :: ClashAt(cfgs, i)
    ensures Register(cfgs).Err? ==>
      exists i :: ClashAt(cfgs, i) &&
        Register(cfgs).error == DuplicateAlias(ExplicitAlias(cfgs[i]).value)
    decreases |cfgs|
  {
    if cfgs == [] {
      assert forall i :: !ClashAt(cfgs, i);
    } else {
      var n := |cfgs| - 1;
      var init := cfgs[..n];
      assert cfgs[..n + 1] == cfgs;
      RegisterFailsIff(init);
      RegisterLast(cfgs);
      ClashPrefix(cfgs, n);
      if Register(init).Ok? {
        if Register(cfgs).Err? {
          assert ClashAt(cfgs, n);
        } else {
          forall i | 0 <= i < |cfgs| ensures !ClashAt(cfgs, i) {
            if i < n {
              assert !ClashAt(init, i);
            }
          }
        }
      } else {
        var i :| ClashAt(init, i) && Register(init).error == DuplicateAlias(ExplicitAlias(init[i]).value);
        assert ClashAt(cfgs, i);
      }
    }
  }

  /** The same explicit alias given twice always makes alias assignment fail. */
  lemma RepeatedExplicitAliasFails(cfgs: seq<NodeConfig>, i: nat, j: nat)
    requires i < j < |cfgs|
    requires ExplicitAlias(cfgs[i]).Some?
    requires ExplicitAlias(cfgs[i]) == ExplicitAlias(cfgs[j])
    ensures Register(cfgs).Err?
  {
    if Register(cfgs).Ok? {
      RegisterPrefixOk(cfgs, j);
      var t := Register(cfgs[..j]).value;
      RegisterConsistent(cfgs[..j]);
      assert cfgs[..j][i] == cfgs[i];
      assert t.aliases[i] in t.toClass;
      assert ClashAt(cfgs, j);
      RegisterFailsIff(cfgs);
    }
  }

  /** The per-class counter never decreases along the configurations. */
  lemma {:induction false} CounterMonotone(cfgs: seq<NodeConfig>, p: nat, q: nat, base: string)
    requires p <= q <= |cfgs|
    requires Register(cfgs[..q]).Ok?
    ensures Register(cfgs[..p]).Ok?
    ensures CountOf(Register(cfgs[..p]).value.counter, base)
         <= CountOf(Register(cfgs[..q]).value.counter, base)
    decreases q - p
  {
    if p < q {
      RegisterStep(cfgs, q - 1);
      CounterMonotone(cfgs, p, q - 1, base);
    }
  }

  /** A configuration without an explicit alias gets the candidate for the
      first counter value, above its class's previous counter, that is not
      taken yet; every candidate skipped on the way was taken. */
  lemma AutoAliasChoice(cfgs: seq<NodeConfig>, i: nat)
    requires i < |cfgs|
    requires Register(cfgs).Ok?
    requires ExplicitAlias(cfgs[i]).None?
    ensures Register(cfgs[..i]).Ok? && Register(cfgs[..i + 1]).Ok?
    ensures var base := cfgs[i].node.name;
            var before := Register(cfgs[..i]).value;
            var k := CountOf(Register(cfgs[..i + 1]).value.counter, base);
            && k > CountOf(before.counter, base)
            && Register(cfgs).value.aliases[i] == Candidate(base, k)
            && Candidate(base, k) !in before.toClass
            && forall j :: CountOf(before.counter, base) < j < k ==> Candidate(base, j) in before.toClass
  {
    RegisterPrefixOk(cfgs, i);
    RegisterPrefixOk(cfgs, i + 1);
    RegisterStep(cfgs, i);
    var base := cfgs[i].node.name;
    var before := Register(cfgs[..i]).value;
    var after := Register(cfgs[..i + 1]).value;
    assert after == RegisterOne(before, cfgs[i]).value;
    var k := FirstFree(base, CountOf(before.counter, base) + 1, before.toClass.Keys);
    assert CountOf(after.counter, base) == k;
    assert after.aliases[i] == Candidate(base, k);
    assert Register(cfgs).value.aliases[i] == after.aliases[i];
  }

  /** The first configuration of a class without an explicit alias gets the
      bare class name, unless an earlier configuration already holds it. */
  lemma FirstAutoGetsClassName(cfgs: seq<NodeConfig>, i: nat)
    requires i < |cfgs|
    requires Register(cfgs).Ok?
    requires ExplicitAlias(cfgs[i]).None?
    requires forall j :: 0 <= j < i ==> ExplicitAlias(cfgs[j]).Some? || cfgs[j].node.name != cfgs[i].node.name
    requires cfgs[i].node.name !in Register(cfgs).value.aliases[..i]
    ensures Register(cfgs).value.aliases[i] == cfgs[i].node.name
  {
    var base := cfgs[i].node.name;
    AutoAliasChoice(cfgs, i);
    RegisterPrefixOk(cfgs, i);
    var before := Register(cfgs[..i]).value;
    CounterAbsent(cfgs[..i], base);
    RegisterConsistent(cfgs[..i]);
    assert base !in before.toClass by {
      forall j | 0 <= j < i ensures before.aliases[j] != base {
        assert before.aliases[j] == Register(cfgs).value.aliases[..i][j];
      }
    }
    assert FirstFree(base, 1, before.toClass.Keys) == 1;
  }

  /** A class's counter stays absent while no configuration of that class
      has gone through the automatic branch. */
  lemma {:induction false} CounterAbsent(cfgs: seq<NodeConfig>, base: string)
    requires Register(cfgs).Ok?
    requires forall j :: 0 <= j < |cfgs| ==> ExplicitAlias(cfgs[j]).Some? || cfgs[j].node.name != base
    ensures base !in Register(cfgs).value.counter
    decreases |cfgs|
  {
    if cfgs != [] {
      CounterAbsent(cfgs[..|cfgs| - 1], base);
    }
  }

  /** Later configurations of the same class without explicit alias get
      strictly larger counter values, hence the suffixed names C_n. */
  lemma LaterAutoSuffixIncreases(cfgs: seq<NodeConfig>, i: nat, j: nat)
    requires i < j < |cfgs|
    requires Register(cfgs).Ok?
    requires ExplicitAlias(cfgs[i]).None? && ExplicitAlias(cfgs[j]).None?
    requires cfgs[i].node.name == cfgs[j].node.name
    ensures exists ki: nat, kj: nat ::
      && 1 <= ki < kj
      && Register(cfgs).value.aliases[i] == Candidate(cfgs[i].node.name, ki)
      && Register(cfgs).value.aliases[j] == Suffixed(cfgs[i].node.name, kj)
  {
    var base := cfgs[i].node.name;
    AutoAliasChoice(cfgs, i);
    AutoAliasChoice(cfgs, j);
    CounterMonotone(cfgs, i + 1, j, base);
    var ki := CountOf(Register(cfgs[..i + 1]).value.counter, base);
    var kj := CountOf(Register(cfgs[..j + 1]).value.counter, base);
    assert 1 <= ki < kj;
    assert Register(cfgs).value.aliases[j] == Suffixed(base, kj);
  }

  /** When every configuration names a different class and none brings an
      alias, each alias is the bare class name. */
  lemma {:induction false} DistinctClassesGetBareNames(cfgs: seq<NodeConfig>)
    requires forall i :: 0 <= i < |cfgs| ==> ExplicitAlias(cfgs[i]).None?
    requires forall i, j :: 0 <= i < j < |cfgs| ==> cfgs[i].node.name != cfgs[j].node.name
    ensures Register(cfgs).Ok?
    ensures |Register(cfgs).value.aliases| == |cfgs|
    ensures forall i :: 0 <= i < |cfgs| ==> Register(cfgs).value.aliases[i] == cfgs[i].node.name
    decreases |cfgs|
  {
    if cfgs != [] {
      var n := |cfgs| - 1;
      var init := cfgs[..n];
      DistinctClassesGetBareNames(init);
      var t := Register(init).value;
      var base := cfgs[n].node.name;
      CounterAbsent(init, base);
      RegisterConsistent(init);
      assert base !in t.toClass by {
        forall i | 0 <= i < n ensures t.aliases[i] != base {
          assert t.aliases[i] == cfgs[i].node.name;
        }
      }
    }
  }
}
