/** Compiling a price catalogue: what is accepted, what is kept, and what that guarantees. */
module PricingCatalogue {
  import opened Wrappers
  import opened UsageCost
  import opened Text
  import opened PricingRules
  import opened PricingSafety

  function Outcomes(configs: seq<RuleConfig>): seq<Result<Rule>> {
    seq(|configs|, i requires 0 <= i < |configs| => CompileRule(configs[i]))
  }

  ghost predicate AllOk(outcomes: seq<Result<Rule>>) {
    forall i :: 0 <= i < |outcomes| ==> outcomes[i].Ok?
  }

  ghost function Values(outcomes: seq<Result<Rule>>): (rules: seq<Rule>)
    requires AllOk(outcomes)
    ensures |rules| == |outcomes|
    ensures forall i :: 0 <= i < |outcomes| ==> rules[i] == outcomes[i].value
  {
    seq(|outcomes|, i requires 0 <= i < |outcomes| => outcomes[i].value)
  }

  /** Every rule compiles and no two have the same identity. */
  ghost predicate RulesAccepted(outcomes: seq<Result<Rule>>) {
    AllOk(outcomes) && DistinctRules(Values(outcomes))
  }

  /** The rules that can change a price. */
  function Kept(rules: seq<Rule>): (kept: seq<Rule>)
    ensures forall r :: r in kept <==> r in rules && r.multiplier != 1.0
  {
    if rules == [] then []
    else
      var last := rules[|rules| - 1];
      assert rules == rules[..|rules| - 1] + [last];
      Kept(rules[..|rules| - 1]) + if last.multiplier == 1.0 then [] else [last]
  }

  function Cloned(p: Prices): Prices {
    p.(multiplier := Some(ModelMultiplier(p)))
  }

  function Fields(rules: seq<Rule>): set<Field> {
    set r | r in rules :: r.field
  }

  ghost predicate ModelAccepted(c: ModelConfig) {
    && Trim(c.model) != "" && PricesValid(c.prices) && RulesAccepted(Outcomes(c.rules))
    && WorstCaseFits(Cloned(c.prices), Kept(Values(Outcomes(c.rules))))
  }

  ghost function CompiledOf(c: ModelConfig): CompiledModel
    requires RulesAccepted(Outcomes(c.rules))
  {
    CompiledModel(Cloned(c.prices), Kept(Values(Outcomes(c.rules))))
  }

  datatype Entry = Entry(name: string, model: CompiledModel)

  ghost function Compilation(c: ModelConfig): Result<Entry> {
    if ModelAccepted(c) then Ok(Entry(Trim(c.model), CompiledOf(c))) else Err
  }

  ghost function Entries(configs: seq<ModelConfig>): seq<Result<Entry>> {
    seq(|configs|, i requires 0 <= i < |configs| => Compilation(configs[i]))
  }

  /** Every model is accepted and no name occurs twice. */
  ghost predicate Accepted(entries: seq<Result<Entry>>) {
    && (forall i :: 0 <= i < |entries| ==> entries[i].Ok?)
    && forall i, j :: 0 <= i < j < |entries| ==> entries[i].value.name != entries[j].value.name
  }

  /** The snapshot holds the listed models, their fields, and nothing else. */
  ghost predicate Holds(s: Snapshot, entries: seq<Result<Entry>>)
    requires Accepted(entries)
  {
    ModelsHeld(s.models, entries) && NamesKnown(s.models, entries) && FieldsActive(s.active, entries)
  }

  ghost predicate ModelsHeld(models: map<string, CompiledModel>, entries: seq<Result<Entry>>)
    requires Accepted(entries)
  {
    forall i :: 0 <= i < |entries| ==> entries[i].value.name in models && models[entries[i].value.name] == entries[i].value.model
  }

  ghost predicate NamesKnown(models: map<string, CompiledModel>, entries: seq<Result<Entry>>)
    requires Accepted(entries)
  {
    forall name :: name in models ==> exists i :: 0 <= i < |entries| && name == entries[i].value.name
  }

  ghost predicate FieldsActive(active: set<Field>, entries: seq<Result<Entry>>)
    requires Accepted(entries)
  {
    forall f :: f in active <==> exists i :: 0 <= i < |entries| && f in Fields(entries[i].value.model.rules)
  }

  // ----- the two compilation loops -----

  /** The identities of the rules compiled so far. */
  ghost predicate SeenAll(seen: set<(Field, string)>, rules: seq<Rule>) {
    && (forall j :: 0 <= j < |rules| ==> (rules[j].field, rules[j].value) in seen)
    && (forall id :: id in seen ==> exists j :: 0 <= j < |rules| && id == (rules[j].field, rules[j].value))
  }

  /** Where the rule loop stands after `i` rules. */
  ghost predicate Collected(outcomes: seq<Result<Rule>>, i: nat, seen: set<(Field, string)>, kept: seq<Rule>, active: set<Field>) {
    && i <= |outcomes| && RulesAccepted(outcomes[..i])
    && SeenAll(seen, Values(outcomes[..i])) && kept == Kept(Values(outcomes[..i])) && active == Fields(kept)
  }

  lemma {:induction false} SeenStep(rules: seq<Rule>, r: Rule, seen: set<(Field, string)>)
    requires SeenAll(seen, rules)
    ensures SeenAll(seen + {(r.field, r.value)}, rules + [r])
  {
    var more := rules + [r];
    forall id | id in seen + {(r.field, r.value)}
      ensures exists j :: 0 <= j < |more| && id == (more[j].field, more[j].value)
    {
      if id in seen {
        var j :| 0 <= j < |rules| && id == (rules[j].field, rules[j].value);
        assert id == (more[j].field, more[j].value);
      } else {
        assert id == (more[|rules|].field, more[|rules|].value);
      }
    }
  }

  lemma {:induction false} NewIsDistinct(rules: seq<Rule>, r: Rule, seen: set<(Field, string)>)
    requires DistinctRules(rules) && SeenAll(seen, rules) && (r.field, r.value) !in seen
    ensures DistinctRules(rules + [r])
  {
  }

  lemma {:induction false} CollectRule(
      outcomes: seq<Result<Rule>>, i: nat, seen: set<(Field, string)>, kept: seq<Rule>, active: set<Field>,
      r: Rule, kept': seq<Rule>)
    requires Collected(outcomes, i, seen, kept, active) && i < |outcomes| && outcomes[i] == Ok(r)
    requires (r.field, r.value) !in seen
    requires kept' == kept + if r.multiplier == 1.0 then [] else [r]
    ensures Collected(outcomes, i + 1, seen + {(r.field, r.value)}, kept', Fields(kept'))
  {
    var rules, more := Values(outcomes[..i]), outcomes[..i + 1];
    assert more == outcomes[..i] + [outcomes[i]];
    assert AllOk(more) && Values(more) == rules + [r];
    NewIsDistinct(rules, r, seen);
    SeenStep(rules, r, seen);
    assert (rules + [r])[..|rules|] == rules;
  }

  lemma {:induction false} SecondRefused(outcomes: seq<Result<Rule>>, i: nat, seen: set<(Field, string)>, r: Rule)
    requires i < |outcomes| && AllOk(outcomes[..i]) && SeenAll(seen, Values(outcomes[..i]))
    requires outcomes[i] == Ok(r) && (r.field, r.value) in seen
    ensures !RulesAccepted(outcomes)
  {
    var rules := Values(outcomes[..i]);
    var j :| 0 <= j < i && (r.field, r.value) == (rules[j].field, rules[j].value);
    if AllOk(outcomes) {
      var all := Values(outcomes);
      assert all[j] == rules[j] && all[i] == r;
    }
  }

  /** The rule loop: compile, refuse a second rule with the same identity, keep what matters. */
  method CompileRules(configs: seq<RuleConfig>) returns (r: Option<seq<Rule>>, active: set<Field>)
    ensures r.Some? <==> RulesAccepted(Outcomes(configs))
    ensures r.Some? ==> r.value == Kept(Values(Outcomes(configs))) && active == Fields(r.value)
  {
    var kept: seq<Rule> := [];
    var seen: set<(Field, string)> := {};
    active := {};
    ghost var outcomes := Outcomes(configs);
    for i := 0 to |configs|
      invariant Collected(outcomes, i, seen, kept, active)
    {
      var compiled := CompileRule(configs[i]);
      assert compiled == outcomes[i];
      if compiled.Err? {
        return None, {};
      }
      var rule := compiled.value;
      if (rule.field, rule.value) in seen {
        SecondRefused(outcomes, i, seen, rule);
        return None, {};
      }
      ghost var was := kept;
      if rule.multiplier != 1.0 {
        kept := kept + [rule];
      }
      CollectRule(outcomes, i, seen, was, active, rule, kept);
      seen := seen + {(rule.field, rule.value)};
      if rule.multiplier != 1.0 {
        active := active + {rule.field};
      }
    }
    assert outcomes[..|configs|] == outcomes;
    return Some(kept), active;
  }

  /** One model's prices and rules; its worst case is checked on the rules that are kept. */
  method CompileModelConfig(c: ModelConfig) returns (r: Result<CompiledModel>, active: set<Field>)
    ensures r.Ok? <==> ModelAccepted(c)
    ensures r.Ok? ==> r.value == CompiledOf(c) && active == Fields(r.value.rules)
  {
    active := {};
    if Trim(c.model) == "" || !PricesValid(c.prices) {
      return Err, {};
    }
    var rules, fields := CompileRules(c.rules);
    if rules.None? {
      return Err, {};
    }
    var fits := ValidateWorstCaseCost(Cloned(c.prices), rules.value);
    if !fits {
      return Err, {};
    }
    return Ok(CompiledModel(Cloned(c.prices), rules.value)), fields;
  }

  method CompileSnapshot(configs: seq<ModelConfig>) returns (r: Result<Snapshot>)
    ensures r.Ok? <==> Accepted(Entries(configs))
    ensures r.Ok? ==> Holds(r.value, Entries(configs))
  {
    var models: map<string, CompiledModel> := map[];
    var active: set<Field> := {};
    ghost var entries := Entries(configs);
    for i := 0 to |configs|
      invariant Accepted(entries[..i]) && Holds(Snapshot(models, active), entries[..i])
    {
      var compiled, fields := CompileModelConfig(configs[i]);
      assert entries[i] == Compilation(configs[i]);
      if compiled.Err? {
        return Err;
      }
      var name := Trim(configs[i].model);
      if name in models {
        NameTaken(Snapshot(models, active), entries, i, Entry(name, compiled.value));
        return Err;
      }
      HoldsStep(Snapshot(models, active), entries[..i], Entry(name, compiled.value), entries[..i + 1]);
      models := models[name := compiled.value];
      active := active + fields;
    }
    assert entries[..|configs|] == entries;
    return Ok(Snapshot(models, active));
  }

  lemma {:induction false} NameTaken(s: Snapshot, entries: seq<Result<Entry>>, i: nat, e: Entry)
    requires i < |entries| && Accepted(entries[..i]) && Holds(s, entries[..i])
    requires entries[i] == Ok(e) && e.name in s.models
    ensures !Accepted(entries)
  {
    var j :| 0 <= j < i && e.name == entries[..i][j].value.name;
    assert entries[j] == entries[..i][j];
  }

  lemma {:induction false} FieldsStep(active: set<Field>, entries: seq<Result<Entry>>, e: Entry, more: seq<Result<Entry>>)
    requires Accepted(entries) && Accepted(more) && more == entries + [Ok(e)]
    requires FieldsActive(active, entries)
    ensures FieldsActive(active + Fields(e.model.rules), more)
  {
    hide Fields;
    var n := |entries|;
    assert more[n] == Ok(e) && forall i :: 0 <= i < n ==> more[i] == entries[i];
    forall f
      ensures f in active + Fields(e.model.rules) <==> exists i :: 0 <= i < |more| && f in Fields(more[i].value.model.rules)
    {
      if f in active {
        var i :| 0 <= i < n && f in Fields(entries[i].value.model.rules);
        assert f in Fields(more[i].value.model.rules);
      } else if f in Fields(e.model.rules) {
        assert f in Fields(more[n].value.model.rules);
      }
      if i :| 0 <= i < |more| && f in Fields(more[i].value.model.rules) {
        assert i < n ==> f in Fields(entries[i].value.model.rules);
      }
    }
  }

  lemma {:induction false} NamesStep(models: map<string, CompiledModel>, entries: seq<Result<Entry>>, e: Entry, more: seq<Result<Entry>>)
    requires Accepted(entries) && Accepted(more) && more == entries + [Ok(e)]
    requires NamesKnown(models, entries)
    ensures NamesKnown(models[e.name := e.model], more)
  {
    var n := |entries|;
    assert more[n] == Ok(e) && forall i :: 0 <= i < n ==> more[i] == entries[i];
    forall name | name in models || name == e.name
      ensures exists i :: 0 <= i < |more| && name == more[i].value.name
    {
      if name in models {
        var i :| 0 <= i < n && name == entries[i].value.name;
        assert name == more[i].value.name;
      } else {
        assert name == more[n].value.name;
      }
    }
  }

  lemma {:induction false} AcceptedStep(s: Snapshot, entries: seq<Result<Entry>>, e: Entry, more: seq<Result<Entry>>)
    requires Accepted(entries) && Holds(s, entries) && more == entries + [Ok(e)] && e.name !in s.models
    ensures Accepted(more)
  {
    hide Fields;
    assert forall i :: 0 <= i < |entries| ==> more[i] == entries[i] && entries[i].value.name in s.models;
  }

  lemma {:induction false} ModelsStep(models: map<string, CompiledModel>, entries: seq<Result<Entry>>, e: Entry, more: seq<Result<Entry>>)
    requires Accepted(entries) && Accepted(more) && more == entries + [Ok(e)] && e.name !in models
    requires ModelsHeld(models, entries)
    ensures ModelsHeld(models[e.name := e.model], more)
  {
    assert forall i :: 0 <= i < |entries| ==> more[i] == entries[i];
  }

  lemma {:induction false} HoldsStep(s: Snapshot, entries: seq<Result<Entry>>, e: Entry, more: seq<Result<Entry>>)
    requires Accepted(entries) && Holds(s, entries) && more == entries + [Ok(e)] && e.name !in s.models
    ensures Accepted(more)
    ensures Holds(Snapshot(s.models[e.name := e.model], s.active + Fields(e.model.rules)), more)
  {
    AcceptedStep(s, entries, e, more);
    hide Fields;
    hide Accepted;
    hide ModelsHeld;
    hide NamesKnown;
    hide FieldsActive;
    FieldsStep(s.active, entries, e, more);
    NamesStep(s.models, entries, e, more);
    ModelsStep(s.models, entries, e, more);
  }

  // ----- what acceptance guarantees -----

  lemma {:induction false} KeptDistinct(rules: seq<Rule>)
    requires DistinctRules(rules)
    ensures DistinctRules(Kept(rules))
  {
    if rules != [] {
      var n := |rules| - 1;
      var before, kept := rules[..n], Kept(rules[..n]);
      KeptDistinct(before);
      forall i | 0 <= i < |kept|
        ensures kept[i].field != rules[n].field || kept[i].value != rules[n].value
      {
        assert kept[i] in kept;
        var j :| 0 <= j < n && before[j] == kept[i];
        assert rules[j] == kept[i];
      }
    }
  }

  lemma {:induction false} AcceptedRulesValid(c: ModelConfig)
    requires ModelAccepted(c)
    ensures RulesValid(CompiledOf(c).rules)
  {
    var all, kept := Values(Outcomes(c.rules)), CompiledOf(c).rules;
    KeptDistinct(all);
    forall i | 0 <= i < |kept|
      ensures IsNonNegativeFinite(kept[i].multiplier)
    {
      assert kept[i] in kept;
      var j :| 0 <= j < |all| && all[j] == kept[i];
      assert CompileRule(c.rules[j]) == Ok(all[j]);
    }
  }

  lemma {:induction false} HeldModel(s: Snapshot, configs: seq<ModelConfig>, name: string) returns (c: ModelConfig)
    requires Accepted(Entries(configs)) && Holds(s, Entries(configs)) && name in s.models
    ensures ModelAccepted(c) && name == Trim(c.model) && s.models[name] == CompiledOf(c)
  {
    var entries := Entries(configs);
    var i :| 0 <= i < |entries| && name == entries[i].value.name;
    c := configs[i];
    assert entries[i] == Compilation(c);
  }

  /** No 64-bit usage can push any number of its pricing past the largest finite one. */
  lemma {:induction false} AcceptedNeverOverflows(configs: seq<ModelConfig>, s: Snapshot, d: Dimensions, t: TokenInput)
    requires Accepted(Entries(configs)) && Holds(s, Entries(configs)) && Int64Tokens(t)
    ensures 0.0 <= Calculate(s, d, t).cost.total <= MAX_FLOAT64
    ensures match MatchModel(s, d)
            case None => Calculate(s, d, t).cost == NO_COST
            case Some(m) => if m.prices.multiplier == Some(0.0) then Calculate(s, d, t).cost == NO_COST else StaysFinite(m, d, t)
  {
    match MatchModel(s, d)
    case None =>
    case Some(m) =>
      var c := HeldModel(s, configs, if d.model in s.models then d.model else d.modelAlias);
      AcceptedRulesValid(c);
      if m.prices.multiplier != Some(0.0) {
        FittingStaysFinite(m, d, t);
      }
  }

  lemma {:induction false} AppendRule(rules: seq<Rule>, r: Rule, d: Dimensions, more: seq<Rule>)
    requires more == rules + [r]
    ensures PartialProduct(more, d, |more|) ==
              if Matches(r, d) then Times(PartialProduct(rules, d, |rules|), r.multiplier) else PartialProduct(rules, d, |rules|)
  {
    PartialProductPrefix(more, rules, d, |rules|);
  }

  lemma {:induction false} KeptMultiplierStep(rules: seq<Rule>, kept: seq<Rule>, r: Rule, d: Dimensions, rules': seq<Rule>, kept': seq<Rule>)
    requires rules' == rules + [r] && kept' == kept + if r.multiplier == 1.0 then [] else [r]
    requires PartialProduct(kept, d, |kept|) == PartialProduct(rules, d, |rules|)
    ensures PartialProduct(kept', d, |kept'|) == PartialProduct(rules', d, |rules'|)
  {
    AppendRule(rules, r, d, rules');
    if r.multiplier == 1.0 {
      assert kept' == kept;
      assert Times(PartialProduct(rules, d, |rules|), 1.0) == PartialProduct(rules, d, |rules|);
    } else {
      AppendRule(kept, r, d, kept');
    }
  }

  /** Leaving out the rules whose multiplier is one changes no price. */
  lemma {:induction false} KeptMultiplier(rules: seq<Rule>, d: Dimensions)
    ensures PartialProduct(Kept(rules), d, |Kept(rules)|) == PartialProduct(rules, d, |rules|)
  {
    if rules != [] {
      hide PartialProduct;
      var before, last := rules[..|rules| - 1], rules[|rules| - 1];
      KeptMultiplier(before, d);
      KeptMultiplierStep(before, Kept(before), last, d, rules, Kept(rules));
    }
  }

  lemma {:induction false} PartialProductPrefix(rules: seq<Rule>, before: seq<Rule>, d: Dimensions, n: nat)
    requires n <= |before| && before <= rules
    ensures PartialProduct(rules, d, n) == PartialProduct(before, d, n)
  {
    if n > 0 {
      PartialProductPrefix(rules, before, d, n - 1);
    }
  }

  lemma {:induction false} KeptRulesPriceAll(rules: seq<Rule>, d: Dimensions)
    ensures RuleMultiplier(Kept(rules), d) == RuleMultiplier(rules, d)
  {
    assert rules[0..] == rules && Kept(rules)[0..] == Kept(rules);
    MultiplierIsProduct(rules, d, 0, 1.0);
    MultiplierIsProduct(Kept(rules), d, 0, 1.0);
    KeptMultiplier(rules, d);
  }
}
