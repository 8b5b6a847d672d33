/** Which AI model a feature gets (models/ai_agent_config.go:30-166): a base configuration, overridden
    field by field, then looked up by feature and tier. Names of features and tiers are strings. */
module ModelConfig {
  import opened Wrappers

  datatype Override = Override(light: string, heavy: string)

  /** The values of a configuration. */
  datatype Config = Config(
    light: string, heavy: string,
    caseReview: Option<Override>, ruleDescription: Option<Override>,
    ruleBuilder: Option<Override>, screeningHitSuggestion: Option<Override>)
  {
    function FeatureOverride(feature: string): Option<Override> {
      if feature == "case_review" then caseReview
      else if feature == "rule_description" then ruleDescription
      else if feature == "rule_builder" then ruleBuilder
      else if feature == "screening_hit_suggestion" then screeningHitSuggestion
      else None
    }

    predicate Validates() {
      light != "" && heavy != ""
    }

    function Default(tier: string): string {
      if tier == "heavy" then heavy else light
    }

    /** "" when the feature has no model of its own for the tier. */
    function Own(feature: string, tier: string): string {
      match FeatureOverride(feature)
      case None => ""
      case Some(o) => if tier == "light" then o.light else if tier == "heavy" then o.heavy else ""
    }

    /** Overridden field by field by what o sets, as `mergo.WithOverride` does. */
    function OverriddenBy(o: Config): Config {
      Config(
        Or(o.light, light), Or(o.heavy, heavy),
        MergedOverride(caseReview, o.caseReview), MergedOverride(ruleDescription, o.ruleDescription),
        MergedOverride(ruleBuilder, o.ruleBuilder),
        MergedOverride(screeningHitSuggestion, o.screeningHitSuggestion))
    }
  }

  function MergedOverride(base: Option<Override>, o: Option<Override>): Option<Override> {
    if base.None? then o
    else if o.None? then base
    else Some(Override(
      Or(o.value.light, base.value.light), Or(o.value.heavy, base.value.heavy)))
  }

  function Or(first: string, second: string): string {
    if first != "" then first else second
  }

  lemma OverriddenFieldwise(base: Config, o: Config, feature: string, tier: string)
    ensures base.OverriddenBy(o).Own(feature, tier) == Or(o.Own(feature, tier), base.Own(feature, tier))
    ensures base.OverriddenBy(o).Default(tier) == Or(o.Default(tier), base.Default(tier))
  {
  }

  /** Each feature reads its own override and no other. */
  lemma FeaturesAreSeparate(c: Config, o: Option<Override>, tier: string)
    ensures var r := c.(caseReview := o);
      && (forall f | f != "case_review" :: r.Own(f, tier) == c.Own(f, tier))
      && (o.Some? ==> r.Own("case_review", "light") == o.value.light
                      && r.Own("case_review", "heavy") == o.value.heavy)
    ensures var r := c.(ruleDescription := o);
      && (forall f | f != "rule_description" :: r.Own(f, tier) == c.Own(f, tier))
      && (o.Some? ==> r.Own("rule_description", "light") == o.value.light
                      && r.Own("rule_description", "heavy") == o.value.heavy)
    ensures var r := c.(ruleBuilder := o);
      && (forall f | f != "rule_builder" :: r.Own(f, tier) == c.Own(f, tier))
      && (o.Some? ==> r.Own("rule_builder", "light") == o.value.light
                      && r.Own("rule_builder", "heavy") == o.value.heavy)
    ensures var r := c.(screeningHitSuggestion := o);
      && (forall f | f != "screening_hit_suggestion" :: r.Own(f, tier) == c.Own(f, tier))
      && (o.Some? ==> r.Own("screening_hit_suggestion", "light") == o.value.light
                      && r.Own("screening_hit_suggestion", "heavy") == o.value.heavy)
  {
  }

  datatype LoadError = CannotLoadBase | CannotLoadOverride | MissingDefault

  class AiAgentModelConfig {
    var light: string
    var heavy: string
    var caseReview: Option<Override>
    var ruleDescription: Option<Override>
    var ruleBuilder: Option<Override>
    var screeningHitSuggestion: Option<Override>

    function Value(): Config
      reads this
    {
      Config(light, heavy, caseReview, ruleDescription, ruleBuilder, screeningHitSuggestion)
    }

    constructor (c: Config)
      ensures Value() == c
    {
      light, heavy, caseReview := c.light, c.heavy, c.caseReview;
      ruleDescription, ruleBuilder := c.ruleDescription, c.ruleBuilder;
      screeningHitSuggestion := c.screeningHitSuggestion;
    }

    /** `mergo.Merge` into this configuration, with override. Every own model and every default is the
        override's, if it sets it, and else what it was. */
    method Merge(override: AiAgentModelConfig)
      modifies this
      ensures Value() == old(Value().OverriddenBy(override.Value()))
      ensures forall feature, tier ::
        Value().Own(feature, tier) == old(Or(override.Value().Own(feature, tier), Value().Own(feature, tier)))
      ensures forall tier ::
        Value().Default(tier) == old(Or(override.Value().Default(tier), Value().Default(tier)))
    {
      if override.light != "" {
        light := override.light;
      }
      if override.heavy != "" {
        heavy := override.heavy;
      }
      caseReview := MergedOverride(caseReview, override.caseReview);
      ruleDescription := MergedOverride(ruleDescription, override.ruleDescription);
      ruleBuilder := MergedOverride(ruleBuilder, override.ruleBuilder);
      screeningHitSuggestion := MergedOverride(screeningHitSuggestion, override.screeningHitSuggestion);
      assert Value() == old(Value().OverriddenBy(override.Value()));
      forall feature, tier
        ensures Value().Own(feature, tier)
          == old(Or(override.Value().Own(feature, tier), Value().Own(feature, tier)))
        ensures Value().Default(tier) == old(Or(override.Value().Default(tier), Value().Default(tier)))
      {
        OverriddenFieldwise(old(Value()), old(override.Value()), feature, tier);
      }
      hide Config.Own, Config.Default, Config.OverriddenBy;
    }

    method GetModel(feature: string, tier: string) returns (model: string)
      ensures model == Or(Value().Own(feature, tier), Value().Default(tier))
    {
      var override := Value().FeatureOverride(feature);
      if override.Some? {
        match tier {
          case "light" =>
            if override.value.light != "" {
              return override.value.light;
            }
          case "heavy" =>
            if override.value.heavy != "" {
              return override.value.heavy;
            }
          case _ =>
        }
      }
      if tier == "heavy" {
        return heavy;
      }
      return light;
    }
  }

  /** What reading a file came to; None when no file is configured. */
  type Source = Option<Result<Config, string>>

  predicate Failed(f: Source) {
    f.Some? && f.value.Err?
  }

  const EMPTY := Config("", "", None, None, None, None)

  function Given(f: Source): Config {
    if f.Some? && f.value.Ok? then f.value.value else EMPTY
  }

  function Layered(base: Source, override: Source): Config {
    Given(base).OverriddenBy(Given(override))
  }

  /** `LoadAiAgentModelConfig`. */
  method Load(base: Source, override: Source) returns (r: Result<AiAgentModelConfig, LoadError>)
    ensures r.Ok? <==> !Failed(base) && !Failed(override) && Layered(base, override).Validates()
    ensures r.Ok? ==> fresh(r.value) && r.value.Value() == Layered(base, override)
    ensures r.Err? ==> r.error == if Failed(base) then CannotLoadBase
                                  else if Failed(override) then CannotLoadOverride else MissingDefault
  {
    var config := new AiAgentModelConfig(EMPTY);
    match base {
      case Some(Err(_)) => return Err(CannotLoadBase);
      case Some(Ok(c)) => config := new AiAgentModelConfig(c);
      case None =>
    }
    match override {
      case Some(Err(_)) => return Err(CannotLoadOverride);
      case Some(Ok(c)) =>
        var o := new AiAgentModelConfig(c);
        config.Merge(o);
      case None =>
    }
    if !config.Value().Validates() {
      return Err(MissingDefault);
    }
    r := Ok(config);
  }

  /** The model that `GetModel` returns. */
  function ModelOf(c: Config, feature: string, tier: string): string {
    Or(c.Own(feature, tier), c.Default(tier))
  }

  /** Four layers: a feature's own model in the override, then in the base, then the default of the
      override, then that of the base. */
  lemma LookupIsLayered(base: Source, override: Source, feature: string, tier: string)
    ensures ModelOf(Layered(base, override), feature, tier)
      == Or(Given(override).Own(feature, tier), Or(Given(base).Own(feature, tier),
           Or(Given(override).Default(tier), Given(base).Default(tier))))
  {
    hide Given, Config.Own, Config.Default, Config.OverriddenBy;
    OverriddenFieldwise(Given(base), Given(override), feature, tier);
  }

  /** Validation is exactly what keeps every lookup from returning an empty name. */
  lemma ValidIffNeverEmpty(c: Config)
    ensures c.Validates() <==> forall feature, tier :: ModelOf(c, feature, tier) != ""
  {
    if forall feature, tier :: ModelOf(c, feature, tier) != "" {
      assert ModelOf(c, "", "light") != "" && ModelOf(c, "", "heavy") != "";
    }
  }

  /** An override changes no lookup that it says nothing about. */
  lemma OverrideIsLocal(base: Config, o: Config, feature: string, tier: string)
    requires o.Own(feature, tier) == "" && (base.Own(feature, tier) == "" ==> o.Default(tier) == "")
    ensures ModelOf(base.OverriddenBy(o), feature, tier) == ModelOf(base, feature, tier)
  {
    LookupIsLayered(Some(Ok(base)), Some(Ok(o)), feature, tier);
  }
}
