/**
 * The enhancement stage (services/jd_enhancement_service.py): the extracted record is turned
 * into the model's input, the enhanced record comes back through the normaliser, and
 * `map_to_job_form` renames and newline-joins it into the flat job-form record. The mapper is a
 * table of forty rules, one per form key, followed by two fix-ups: an experience note for an
 * empty `required_qualifications`, and a title fallback.
 */
module JdEnhancementService {
  import opened Wrappers
  import opened PyText
  import opened PyJson
  import opened Errors
  import opened Schemas
  import GptService

  // ----- Input defaulting (jd_enhancement_service.py:10-16, 41-48) -----

  /** `JDEnhancementInput`. Its defaults `[]` and `0` never apply: all five arguments are always passed. */
  const EnhancementInputSchema: Schema := [
    FieldSpec("job_title", Str, false, None),
    FieldSpec("job_description", Str, false, None),
    FieldSpec("industry_name", Str, false, None),
    FieldSpec("required_skills", StrList, false, None),
    FieldSpec("min_work_experience", Int, false, None)
  ]

  /** The default each `.get` falls back on, argument by argument. */
  const InputDefaults: seq<Json> := [JString(""), JString(""), JString(""), JArray([]), JInt(0)]

  /** The keyword arguments built from a plain dict with `.get(key, default)`, one per input field. */
  function InputArgumentsAsWritten(jd: seq<Entry>): (args: seq<Entry>)
    ensures Keys(args) == Names(EnhancementInputSchema)
    ensures forall i :: 0 <= i < 5 ==> args[i].value == GetOr(jd, EnhancementInputSchema[i].name, InputDefaults[i])
  {
    seq(5, i requires 0 <= i < 5 => Entry(EnhancementInputSchema[i].name, GetOr(jd, EnhancementInputSchema[i].name, InputDefaults[i])))
  }

  /** `JDEnhancementInput(**arguments)` as the source builds it. */
  function PrepareInputAsWritten(jd: seq<Entry>): (r: Result<seq<Entry>, Error>)
    ensures r.Ok? ==> Conforms(EnhancementInputSchema, r.value)
    ensures r.Err? ==> r.error.ValidationFailed?
  {
    Validate(EnhancementInputSchema, InputArgumentsAsWritten(jd))
  }

  /** `d.get(k) if d.get(k) is not None else default`: a key bound to `None` counts as missing. */
  function GetOrIfNone(d: seq<Entry>, k: string, default: Json): (r: Json)
    ensures Lookup(d, k).None? || Lookup(d, k) == Some(JNull) ==> r == default
    ensures Lookup(d, k).Some? && Lookup(d, k) != Some(JNull) ==> Lookup(d, k) == Some(r)
  {
    match Lookup(d, k)
    case Some(v) => if v == JNull then default else v
    case None => default
  }

  function InputArguments(jd: seq<Entry>): (args: seq<Entry>)
    ensures Keys(args) == Names(EnhancementInputSchema)
    ensures forall i :: 0 <= i < 5 ==> args[i].value == GetOrIfNone(jd, EnhancementInputSchema[i].name, InputDefaults[i])
  {
    seq(5, i requires 0 <= i < 5 => Entry(EnhancementInputSchema[i].name, GetOrIfNone(jd, EnhancementInputSchema[i].name, InputDefaults[i])))
  }

  /** The input the enhancement step evidently intends: missing and `None` values both take the default. */
  function PrepareInput(jd: seq<Entry>): (r: Result<seq<Entry>, Error>)
    ensures r.Ok? ==> Conforms(EnhancementInputSchema, r.value)
    ensures r.Err? ==> r.error.ValidationFailed?
  {
    Validate(EnhancementInputSchema, InputArguments(jd))
  }

  /** The two defaultings differ only on a key bound to `None`. */
  lemma PrepareInputAgrees(jd: seq<Entry>)
    requires forall i :: 0 <= i < 5 ==> Lookup(jd, EnhancementInputSchema[i].name) != Some(JNull)
    ensures PrepareInputAsWritten(jd) == PrepareInput(jd)
  {
    assert InputArgumentsAsWritten(jd) == InputArguments(jd);
  }

  /** The five argument names, which are also the extraction schema's field names. */
  const InputNames: seq<string> := ["job_title", "job_description", "industry_name", "required_skills", "min_work_experience"]

  lemma InputColumns()
    ensures Names(EnhancementInputSchema) == InputNames && Names(ExtractionSchema) == InputNames
    ensures AliasesOf(EnhancementInputSchema) == [None, None, None, None, None]
  {
  }

  lemma InputNamesDistinct()
    ensures Distinct(InputNames)
  {
  }

  lemma InputSchemaWellFormed()
    ensures WellFormed(EnhancementInputSchema)
  {
    InputColumns();
    InputNamesDistinct();
  }

  /** Each default has its argument's declared kind. */
  lemma DefaultsAccepted()
    ensures forall i :: 0 <= i < 5 ==> Accepts(EnhancementInputSchema[i], InputDefaults[i])
  {
  }

  /** Arguments of the declared kinds are accepted and kept as they are. */
  lemma ArgumentsAccepted(args: seq<Entry>)
    requires Conforms(EnhancementInputSchema, args)
    ensures Validate(EnhancementInputSchema, args) == Ok(args)
  {
    InputSchemaWellFormed();
    ValidateIdempotent(EnhancementInputSchema, args);
  }

  /** A dict with none of the five keys is defaulted to `""`, `""`, `""`, `[]` and `0`. */
  lemma EmptyInputDefaults()
    ensures PrepareInputAsWritten([]) == Ok(DefaultArguments)
  {
    EmptyArguments();
    DefaultsConform();
    ArgumentsAccepted(DefaultArguments);
  }

  const DefaultArguments: seq<Entry> := [
    Entry("job_title", JString("")), Entry("job_description", JString("")), Entry("industry_name", JString("")),
    Entry("required_skills", JArray([])), Entry("min_work_experience", JInt(0))]

  lemma EmptyArguments()
    ensures InputArgumentsAsWritten([]) == DefaultArguments
  {
    InputColumns();
  }

  lemma DefaultsConform()
    ensures Conforms(EnhancementInputSchema, DefaultArguments)
  {
  }

  /** The record extraction hands over when the model left out the optional fields. */
  const ExtractedWithoutOptionals: seq<Entry> := [
    Entry("job_title", JString("SWE")), Entry("job_description", JString("Builds services")),
    Entry("industry_name", JString("Tech")), Entry("required_skills", JNull), Entry("min_work_experience", JNull)]

  lemma ExtractedConforms()
    ensures Conforms(ExtractionSchema, ExtractedWithoutOptionals)
  {
  }

  /** As written, a valid extraction record whose optional fields are `None` is rejected: `.get` returns the `None`. */
  lemma AsWrittenRejectsExtractedNone()
    ensures Conforms(ExtractionSchema, ExtractedWithoutOptionals)
    ensures PrepareInputAsWritten(ExtractedWithoutOptionals).Err?
  {
    ExtractedConforms();
    InputColumns();
    InputNamesDistinct();
    ConformsLookup(ExtractionSchema, ExtractedWithoutOptionals, 4);
    var args := InputArgumentsAsWritten(ExtractedWithoutOptionals);
    LookupAt(args, 4);
    assert !FieldValid(EnhancementInputSchema[4], args);
  }

  /** Each argument built from a valid extraction record has its declared kind. */
  lemma ArgumentKind(jd: seq<Entry>, i: nat)
    requires Conforms(ExtractionSchema, jd) && i < 5
    ensures Accepts(EnhancementInputSchema[i], InputArguments(jd)[i].value)
  {
    InputColumns();
    InputNamesDistinct();
    DefaultsAccepted();
    ConformsLookup(ExtractionSchema, jd, i);
  }

  /** Every record extraction can return is accepted once `None` counts as missing. */
  lemma PrepareInputAcceptsExtraction(jd: seq<Entry>)
    requires Conforms(ExtractionSchema, jd)
    ensures PrepareInput(jd) == Ok(InputArguments(jd))
  {
    forall i | 0 <= i < 5
      ensures Accepts(EnhancementInputSchema[i], InputArguments(jd)[i].value)
    {
      ArgumentKind(jd, i);
    }
    ArgumentsAccepted(InputArguments(jd));
  }

  // ----- The rule table of map_to_job_form (jd_enhancement_service.py:139-194) -----

  /** How one form key is computed from the enhanced record. */
  datatype Rule =
    /** `enhanced.get(source, "")` */
    | Copy(target: string, source: string)
    /** `"\n".join(enhanced.get(source, []))` */
    | JoinList(target: string, source: string)
    /** the join above when `enhanced.get(source)` is a list, otherwise `enhanced.get(source, "")` */
    | JoinIfList(target: string, source: string)

  /** Title, basic job information and posting metadata. */
  const BasicRules: seq<Rule> := [
    Copy("title", "job_title"),
    Copy("job_code", "job_code"),
    Copy("job_level", "job_level"),
    Copy("department", "department"),
    Copy("job_function", "job_function"),
    Copy("contract_duration", "contract_duration"),
    Copy("time_commitment", "time_commitment")
  ]

  /** Detailed role description and requirements breakdown. */
  const RoleRules: seq<Rule> := [
    Copy("job_summary", "role_summary"),
    JoinList("day_to_day_tasks", "responsibilities"),
    JoinList("performance_indicators", "performance_indicators"),
    Copy("decision_making", "decision_making"),
    Copy("stakeholder_interactions", "stakeholder_interactions"),
    Copy("required_qualifications", "required_qualifications"),
    Copy("preferred_qualifications", "preferred_qualifications"),
    Copy("mandatory_certifications", "mandatory_certifications"),
    Copy("legal_eligibility", "legal_eligibility"),
    Copy("background_checks", "background_checks"),
    Copy("clearance_level", "clearance_level")
  ]

  /** Skills classification and compensation details. */
  const SkillRules: seq<Rule> := [
    JoinIfList("hard_skills", "hard_skills"),
    JoinIfList("soft_skills", "soft_skills"),
    JoinIfList("domain_expertise", "domain_expertise"),
    JoinIfList("methodologies", "methodologies"),
    JoinIfList("languages", "languages"),
    Copy("skills_priority", "skills_priority"),
    Copy("base_salary", "base_salary"),
    Copy("bonus_structure", "bonus_structure"),
    Copy("equity_options", "equity_options"),
    Copy("benefits", "benefits"),
    Copy("relocation_assistance", "relocation_assistance"),
    Copy("visa_sponsorship", "visa_sponsorship")
  ]

  /** Work environment and career path information. */
  const WorkRules: seq<Rule> := [
    Copy("work_model", "work_model"),
    Copy("work_locations", "work_locations"),
    Copy("travel_requirements", "travel_requirements"),
    Copy("shift_type", "shift_type"),
    Copy("growth_opportunities", "growth_opportunities"),
    Copy("training_development", "training_development"),
    Copy("mentorship", "mentorship"),
    Copy("succession_planning", "succession_planning"),
    Copy("culture_page_link", "culture_page_link"),
    Copy("careers_page_link", "careers_page_link")
  ]

  /** The dict literal's forty keys, in the order it lists them. */
  const FormRules: seq<Rule> := BasicRules + RoleRules + SkillRules + WorkRules

  /** Each character of a string, as one-character strings: what iterating a `str` yields. */
  function Chars(s: string): (r: seq<string>)
    ensures |r| == |s| && forall i :: 0 <= i < |s| ==> r[i] == [s[i]]
  {
    seq(|s|, i requires 0 <= i < |s| => [s[i]])
  }

  /** `sep.join(v)`: a list must hold only strings; a string yields its characters and a dict its keys;
    * anything else is not iterable. */
  function PyJoin(sep: string, v: Json): (r: Result<string, Error>)
    ensures r.Err? <==> !(v.JString? || v.JObject? || (v.JArray? && AllStrings(v.items)))
    ensures v.JArray? && AllStrings(v.items) ==> r == Ok(Join(sep, Strings(v.items)))
  {
    match v
    case JArray(items) => if AllStrings(items) then Ok(Join(sep, Strings(items))) else Err(JoinTypeError)
    case JString(s) => Ok(Join(sep, Chars(s)))
    case JObject(fields) => Ok(Join(sep, Keys(fields)))
    case _ => Err(JoinTypeError)
  }

  function JoinedText(r: Result<string, Error>): Result<Json, Error>
  {
    match r
    case Ok(t) => Ok(JString(t))
    case Err(e) => Err(e)
  }

  /** The value one rule puts under its target key. */
  function RuleValue(rec: seq<Entry>, r: Rule): (v: Result<Json, Error>)
    ensures r.Copy? ==> v == Ok(if r.source in Keys(rec) then Lookup(rec, r.source).value else JString(""))
    ensures r.JoinList? && r.source !in Keys(rec) ==> v == Ok(JString(""))
    ensures !r.Copy? && Lookup(rec, r.source).Some? && Lookup(rec, r.source).value.JArray? ==>
              v == JoinedText(PyJoin("\n", Lookup(rec, r.source).value))
    ensures r.JoinIfList? && (Lookup(rec, r.source).None? || !Lookup(rec, r.source).value.JArray?) ==>
              v == Ok(if r.source in Keys(rec) then Lookup(rec, r.source).value else JString(""))
  {
    match r
    case Copy(_, source) => Ok(GetOr(rec, source, JString("")))
    case JoinList(_, source) => JoinedText(PyJoin("\n", GetOr(rec, source, JArray([]))))
    case JoinIfList(_, source) =>
      var present := Lookup(rec, source);
      if present.Some? && present.value.JArray? then JoinedText(PyJoin("\n", GetOr(rec, source, JArray([]))))
      else Ok(GetOr(rec, source, JString("")))
  }

  function Targets(rules: seq<Rule>): (ts: seq<string>)
    ensures |ts| == |rules| && forall i :: 0 <= i < |rules| ==> ts[i] == rules[i].target
  {
    seq(|rules|, i requires 0 <= i < |rules| => rules[i].target)
  }

  /** The dict literal, evaluated entry by entry; the first join that raises ends it. */
  function BuildEntries(rec: seq<Entry>, rules: seq<Rule>): (r: Result<seq<Entry>, Error>)
    ensures r.Ok? <==> forall i :: 0 <= i < |rules| ==> RuleValue(rec, rules[i]).Ok?
    ensures r.Ok? ==> Keys(r.value) == Targets(rules)
    ensures r.Ok? ==> forall i :: 0 <= i < |rules| ==> r.value[i].value == RuleValue(rec, rules[i]).value
  {
    if rules == [] then Ok([])
    else
      match RuleValue(rec, rules[0])
      case Err(e) => Err(e)
      case Ok(v) =>
        match BuildEntries(rec, rules[1..])
        case Err(e) => BuildTailFails(rec, rules); Err(e)
        case Ok(rest) => BuildCons(rec, rules, v, rest); Ok([Entry(rules[0].target, v)] + rest)
  }

  lemma BuildTailFails(rec: seq<Entry>, rules: seq<Rule>)
    requires |rules| > 0 && !(forall i :: 0 <= i < |rules[1..]| ==> RuleValue(rec, rules[1..][i]).Ok?)
    ensures !(forall i :: 0 <= i < |rules| ==> RuleValue(rec, rules[i]).Ok?)
  {
    var i :| 0 <= i < |rules[1..]| && !RuleValue(rec, rules[1..][i]).Ok?;
    assert rules[1..][i] == rules[i + 1];
  }

  lemma BuildCons(rec: seq<Entry>, rules: seq<Rule>, v: Json, rest: seq<Entry>)
    requires |rules| > 0 && RuleValue(rec, rules[0]) == Ok(v)
    requires forall i :: 0 <= i < |rules[1..]| ==> RuleValue(rec, rules[1..][i]).Ok?
    requires Keys(rest) == Targets(rules[1..])
    requires forall i :: 0 <= i < |rules[1..]| ==> rest[i].value == RuleValue(rec, rules[1..][i]).value
    ensures forall i :: 0 <= i < |rules| ==> RuleValue(rec, rules[i]).Ok?
    ensures Keys([Entry(rules[0].target, v)] + rest) == Targets(rules)
    ensures forall i :: 0 <= i < |rules| ==> ([Entry(rules[0].target, v)] + rest)[i].value == RuleValue(rec, rules[i]).value
  {
    var es := [Entry(rules[0].target, v)] + rest;
    forall i | 1 <= i < |rules|
      ensures RuleValue(rec, rules[i]).Ok? && es[i].value == RuleValue(rec, rules[i]).value
      ensures es[i].key == rules[i].target
    {
      assert rules[1..][i - 1] == rules[i];
      assert es[i] == rest[i - 1];
      assert Keys(rest)[i - 1] == rest[i - 1].key;
    }
    assert |Keys(es)| == |Targets(rules)|;
    forall i | 0 <= i < |rules| ensures Keys(es)[i] == Targets(rules)[i] {
    }
  }

  /** The forty keys the mapper writes are exactly the form's fields after `company_id`, in order. */
  lemma FormRuleTargets()
    ensures Targets(FormRules) == Names(FormSchema)[1..]
  {
    FormColumns();
    FirstRuleTargets();
    LastRuleTargets();
    TargetsAssemble(BasicRules, RoleRules, SkillRules, WorkRules,
      FormBasicsNames, FormRoleNames, FormSkillsNames, FormWorkNames);
  }

  /** Rule sections whose targets are the form's sections, the first without its leading field, target the
    * whole form without its leading field. */
  lemma TargetsAssemble(b: seq<Rule>, r: seq<Rule>, k: seq<Rule>, w: seq<Rule>,
                        nb: seq<string>, nr: seq<string>, nk: seq<string>, nw: seq<string>)
    requires |nb| > 0 && Targets(b) == nb[1..] && Targets(r) == nr && Targets(k) == nk && Targets(w) == nw
    ensures Targets(b + r + k + w) == (nb + nr + nk + nw)[1..]
  {
    TargetsConcat(b, r);
    TargetsConcat(b + r, k);
    TargetsConcat(b + r + k, w);
    assert (nb + nr + nk + nw)[1..] == nb[1..] + nr + nk + nw;
  }

  lemma FirstRuleTargets()
    ensures Targets(BasicRules) == FormBasicsNames[1..] && Targets(RoleRules) == FormRoleNames
  {
  }

  lemma LastRuleTargets()
    ensures Targets(SkillRules) == FormSkillsNames && Targets(WorkRules) == FormWorkNames
  {
  }

  lemma TargetsConcat(a: seq<Rule>, b: seq<Rule>)
    ensures Targets(a + b) == Targets(a) + Targets(b)
  {
  }

  /** Whichever the input, a literal that builds has the same forty distinct keys. */
  lemma FixedFormKeys(rec: seq<Entry>)
    requires BuildEntries(rec, FormRules).Ok?
    ensures Keys(BuildEntries(rec, FormRules).value) == Names(FormSchema)[1..]
    ensures IsDict(BuildEntries(rec, FormRules).value)
  {
    FormRuleTargets();
    FormWellFormed();
    assert forall i :: 0 <= i < |Names(FormSchema)[1..]| ==> Names(FormSchema)[1..][i] == Names(FormSchema)[i + 1];
  }

  // ----- The fix-ups (jd_enhancement_service.py:196-203) -----

  /** `x > 0` as Python evaluates it for the values a record can hold. */
  function GreaterThanZero(v: Json): (r: Result<bool, Error>)
    ensures r.Err? <==> !(v.JInt? || v.JBool?)
    ensures v.JInt? ==> r == Ok(v.n > 0)
  {
    match v
    case JInt(n) => Ok(n > 0)
    case JBool(b) => Ok(b)
    case _ => Err(CompareTypeError)
  }

  /** The experience test the mapper evidently intends: a missing or `None` experience is no experience. */
  function ExperienceAboveZero(v: Json): (r: Result<bool, Error>)
    ensures v == JNull ==> r == Ok(false)
    ensures v != JNull ==> r == GreaterThanZero(v)
  {
    if v == JNull then Ok(false) else GreaterThanZero(v)
  }

  /** `str(x)` for a number. */
  function PyStr(v: Json): string
  {
    match v
    case JInt(n) => IntToStr(n)
    case JBool(b) => if b then "True" else "False"
    case _ => ""
  }

  function ExperienceNote(years: Json): string
  {
    "Minimum " + PyStr(years) + " years of relevant experience"
  }

  /** The experience note replaces a falsy `required_qualifications` when the experience is positive. */
  function ApplyExperience(form: seq<Entry>, years: Json, positive: bool): (r: seq<Entry>)
    requires "required_qualifications" in Keys(form)
    ensures Keys(r) == Keys(form)
    ensures forall k :: k != "required_qualifications" ==> Lookup(r, k) == Lookup(form, k)
    ensures Lookup(r, "required_qualifications") ==
      if positive && !Truthy(Lookup(form, "required_qualifications").value) then Some(JString(ExperienceNote(years)))
      else Lookup(form, "required_qualifications")
  {
    if positive && !Truthy(Lookup(form, "required_qualifications").value) then
      Store(form, "required_qualifications", JString(ExperienceNote(years)))
    else form
  }

  /** `if not title and enhanced.get("job_title"): title = enhanced["job_title"]`. */
  function TitleFallback(rec: seq<Entry>, form: seq<Entry>): seq<Entry>
    requires "title" in Keys(form)
  {
    if !Truthy(Lookup(form, "title").value) && Lookup(rec, "job_title").Some? && Truthy(Lookup(rec, "job_title").value) then
      Store(form, "title", Lookup(rec, "job_title").value)
    else form
  }

  /** The title fallback never fires: `title` was already read from `job_title`. */
  lemma TitleFallbackNoOp(rec: seq<Entry>, form: seq<Entry>)
    requires "title" in Keys(form) && Lookup(form, "title") == Some(GetOr(rec, "job_title", JString("")))
    ensures TitleFallback(rec, form) == form
  {
  }

  /** What the mapper does once the literal is built and the experience test has an outcome. */
  function FinishForm(rec: seq<Entry>, literal: seq<Entry>, positive: Result<bool, Error>): Result<seq<Entry>, Error>
    requires Keys(literal) == Names(FormSchema)[1..]
  {
    FormKeysPresent(literal);
    match positive
    case Err(e) => Err(e)
    case Ok(p) =>
      var years := GetOr(rec, "min_work_experience", JInt(0));
      var form := ApplyExperience(literal, years, p);
      Validate(FormSchema, TitleFallback(rec, form))
  }

  /** `map_to_job_form` as written: `None > 0` raises. */
  function JobFormAsWritten(rec: seq<Entry>): (r: Result<seq<Entry>, Error>)
    ensures r.Ok? ==> Conforms(FormSchema, r.value)
    ensures BuildEntries(rec, FormRules).Ok? && GetOr(rec, "min_work_experience", JInt(0)) == JNull ==> r == Err(CompareTypeError)
  {
    match BuildEntries(rec, FormRules)
    case Err(e) => Err(e)
    case Ok(literal) =>
      FixedFormKeys(rec);
      FinishForm(rec, literal, GreaterThanZero(GetOr(rec, "min_work_experience", JInt(0))))
  }

  /** `map_to_job_form` with the experience test corrected to treat `None` as zero. */
  function JobForm(rec: seq<Entry>): Result<seq<Entry>, Error>
  {
    match BuildEntries(rec, FormRules)
    case Err(e) => Err(e)
    case Ok(literal) =>
      FixedFormKeys(rec);
      FinishForm(rec, literal, ExperienceAboveZero(GetOr(rec, "min_work_experience", JInt(0))))
  }

  lemma FormKeysPresent(literal: seq<Entry>)
    requires Keys(literal) == Names(FormSchema)[1..]
    ensures "required_qualifications" in Keys(literal) && "title" in Keys(literal)
  {
    FormColumns();
    assert Names(FormSchema)[1..][0] == "title";
    assert Names(FormSchema)[1..][12] == "required_qualifications";
  }

  // ----- Every valid enhanced record maps to a valid form (corrected experience test) -----

  /** A rule carries any value its source field accepts to a value its target field accepts. */
  predicate RuleFits(r: Rule, source: FieldSpec, target: FieldSpec)
  {
    r.source == source.name && r.target == target.name &&
    match r
    case Copy(_, _) =>
      (source.kind == target.kind || (source.kind == StrList && target.kind == StrOrStrList)) &&
      (source.optional ==> target.optional)
    case JoinList(_, _) => source.kind == StrList && !source.optional && target.kind == Str
    case JoinIfList(_, _) => source.kind == StrList && target.kind == Str && target.optional
  }

  predicate AllFit(rules: seq<Rule>, sources: Schema, targets: Schema)
  {
    |rules| == |sources| == |targets| && forall i :: 0 <= i < |rules| ==> RuleFits(rules[i], sources[i], targets[i])
  }

  lemma RuleValueFits(rec: seq<Entry>, r: Rule, source: FieldSpec, target: FieldSpec)
    requires RuleFits(r, source, target)
    requires Lookup(rec, source.name).Some? && Accepts(source, Lookup(rec, source.name).value)
    ensures RuleValue(rec, r).Ok? && Accepts(target, RuleValue(rec, r).value)
  {
  }

  /** Rules that fit their fields build the literal, each value of its target's kind. */
  lemma BuildFits(rec: seq<Entry>, rules: seq<Rule>, sources: Schema, targets: Schema)
    requires AllFit(rules, sources, targets)
    requires forall f :: f in sources ==> Lookup(rec, f.name).Some? && Accepts(f, Lookup(rec, f.name).value)
    ensures BuildEntries(rec, rules).Ok?
    ensures forall i :: 0 <= i < |rules| ==> Accepts(targets[i], BuildEntries(rec, rules).value[i].value)
  {
    forall i | 0 <= i < |rules|
      ensures RuleValue(rec, rules[i]).Ok? && Accepts(targets[i], RuleValue(rec, rules[i]).value)
    {
      RuleValueFits(rec, rules[i], sources[i], targets[i]);
    }
  }

  lemma AllFitConcat(r1: seq<Rule>, s1: Schema, t1: Schema, r2: seq<Rule>, s2: Schema, t2: Schema)
    requires AllFit(r1, s1, t1) && AllFit(r2, s2, t2)
    ensures AllFit(r1 + r2, s1 + s2, t1 + t2)
  {
  }

  /** The enhanced fields each section of the literal reads; `industry_name`, `required_skills` and
    * `min_work_experience` are not copied. */
  const BasicSources: Schema := EnhancedOverview[..5] + EnhancedOverview[6..8]
  const RoleSources: Schema := EnhancedOverview[8..] + EnhancedRequirements[1..7]
  const SkillSources: Schema := EnhancedRequirements[7..] + EnhancedTerms[1..7]
  const WorkSources: Schema := EnhancedTerms[7..] + EnhancedCareer
  const FormSources: Schema := BasicSources + RoleSources + SkillSources + WorkSources

  lemma BasicRulesFit()
    ensures AllFit(BasicRules, BasicSources, FormBasics[1..])
  {
  }

  lemma RoleRulesFit()
    ensures AllFit(RoleRules, RoleSources, FormRole)
  {
    RoleDescriptionFit(); RoleRequirementsFit();
    AllFitConcat(RoleRules[..5], EnhancedOverview[8..], FormRole[..5], RoleRules[5..], EnhancedRequirements[1..7], FormRole[5..]);
    assert RoleRules[..5] + RoleRules[5..] == RoleRules;
    assert FormRole[..5] + FormRole[5..] == FormRole;
  }

  lemma RoleDescriptionFit()
    ensures AllFit(RoleRules[..5], EnhancedOverview[8..], FormRole[..5])
  {
  }

  lemma RoleRequirementsFit()
    ensures AllFit(RoleRules[5..], EnhancedRequirements[1..7], FormRole[5..])
  {
  }

  lemma SkillRulesFit()
    ensures AllFit(SkillRules, SkillSources, FormSkills)
  {
    SkillClassesFit(); CompensationFit();
    AllFitConcat(SkillRules[..6], EnhancedRequirements[7..], FormSkills[..6], SkillRules[6..], EnhancedTerms[1..7], FormSkills[6..]);
    assert SkillRules[..6] + SkillRules[6..] == SkillRules;
    assert FormSkills[..6] + FormSkills[6..] == FormSkills;
  }

  lemma SkillClassesFit()
    ensures AllFit(SkillRules[..6], EnhancedRequirements[7..], FormSkills[..6])
  {
  }

  lemma CompensationFit()
    ensures AllFit(SkillRules[6..], EnhancedTerms[1..7], FormSkills[6..])
  {
  }

  lemma WorkRulesFit()
    ensures AllFit(WorkRules, WorkSources, FormWork)
  {
  }

  lemma FormRulesFit()
    ensures AllFit(FormRules, FormSources, FormSchema[1..])
  {
    BasicRulesFit(); RoleRulesFit(); SkillRulesFit(); WorkRulesFit();
    AllFitConcat(BasicRules, BasicSources, FormBasics[1..], RoleRules, RoleSources, FormRole);
    AllFitConcat(BasicRules + RoleRules, BasicSources + RoleSources, FormBasics[1..] + FormRole, SkillRules, SkillSources, FormSkills);
    AllFitConcat(BasicRules + RoleRules + SkillRules, BasicSources + RoleSources + SkillSources,
                 FormBasics[1..] + FormRole + FormSkills, WorkRules, WorkSources, FormWork);
    assert FormSchema[1..] == FormBasics[1..] + FormRole + FormSkills + FormWork;
  }

  lemma SourcesDeclared()
    ensures forall f :: f in FormSources ==> f in EnhancedSchema
  {
  }

  lemma ConformsMember(s: Schema, rec: seq<Entry>, f: FieldSpec)
    requires Distinct(Names(s)) && Conforms(s, rec) && f in s
    ensures Lookup(rec, f.name).Some? && Accepts(f, Lookup(rec, f.name).value)
  {
    var i :| 0 <= i < |s| && s[i] == f;
    ConformsLookup(s, rec, i);
  }

  /** A record of the enhanced schema builds the literal, and each of its forty values has its form field's kind. */
  lemma LiteralFits(rec: seq<Entry>)
    requires Conforms(EnhancedSchema, rec)
    ensures BuildEntries(rec, FormRules).Ok?
    ensures forall i :: 0 <= i < |FormRules| ==> Accepts(FormSchema[i + 1], BuildEntries(rec, FormRules).value[i].value)
  {
    EnhancedWellFormed();
    SourcesDeclared();
    forall f | f in FormSources
      ensures Lookup(rec, f.name).Some? && Accepts(f, Lookup(rec, f.name).value)
    {
      ConformsMember(EnhancedSchema, rec, f);
    }
    FormRulesFit();
    BuildFits(rec, FormRules, FormSources, FormSchema[1..]);
  }

  /** The value at position `i` of the literal once the experience fix-up has run. */
  function AfterExperience(literal: seq<Entry>, years: Json, positive: bool, i: nat): Json
    requires i < |literal|
  {
    if literal[i].key == "required_qualifications" && positive && !Truthy(literal[i].value) then JString(ExperienceNote(years))
    else literal[i].value
  }

  /** The literal is a dict over the form's fields after `company_id`, each value of its field's kind. */
  predicate LiteralShape(literal: seq<Entry>)
  {
    Keys(literal) == Names(FormSchema)[1..] && IsDict(literal) &&
    forall i :: 0 <= i < |literal| ==> Accepts(FormSchema[i + 1], literal[i].value)
  }

  lemma FixedLookup(literal: seq<Entry>, years: Json, positive: bool, i: nat)
    requires LiteralShape(literal) && "required_qualifications" in Keys(literal) && i < |literal|
    ensures Lookup(ApplyExperience(literal, years, positive), literal[i].key) == Some(AfterExperience(literal, years, positive, i))
  {
    LookupAt(literal, i);
  }

  lemma FixedAccepted(literal: seq<Entry>, years: Json, positive: bool, i: nat)
    requires LiteralShape(literal) && i < |literal|
    ensures Accepts(FormSchema[i + 1], AfterExperience(literal, years, positive, i))
  {
    FormTextFields();
  }

  /** Every form field after `company_id` takes text. */
  lemma FormTextFields()
    ensures forall i :: 1 <= i < |FormSchema| ==> FormSchema[i].kind == Str || FormSchema[i].kind == StrOrStrList
  {
    assert forall i :: 1 <= i < |FormBasics| ==> FormBasics[i].kind == Str;
    assert forall i :: 0 <= i < |FormRole| ==> FormRole[i].kind == Str;
    assert forall i :: 0 <= i < |FormSkills| ==> FormSkills[i].kind == Str || FormSkills[i].kind == StrOrStrList;
    assert forall i :: 0 <= i < |FormWork| ==> FormWork[i].kind == Str;
  }

  lemma CompanyIdAbsent(literal: seq<Entry>)
    requires Keys(literal) == Names(FormSchema)[1..]
    ensures "company_id" !in Keys(literal) && FormSchema[0] == FieldSpec("company_id", Int, true, None)
  {
    FormWellFormed();
    assert Names(FormSchema)[0] == "company_id";
    assert forall i :: 0 <= i < |literal| ==> Keys(literal)[i] == Names(FormSchema)[i + 1];
  }

  lemma FinalSource(literal: seq<Entry>, years: Json, positive: bool, i: nat)
    requires LiteralShape(literal) && "required_qualifications" in Keys(literal) && 1 <= i < |FormSchema|
    ensures FormSchema[i].name == literal[i - 1].key
    ensures Source(FormSchema[i], ApplyExperience(literal, years, positive)) == Some(AfterExperience(literal, years, positive, i - 1))
    ensures FieldValid(FormSchema[i], ApplyExperience(literal, years, positive))
  {
    FormUnaliased();
    assert Keys(literal)[i - 1] == Names(FormSchema)[1..][i - 1];
    FixedLookup(literal, years, positive, i - 1);
    FixedAccepted(literal, years, positive, i - 1);
  }

  /** A schema whose first field is absent and optional, and whose other fields read the entries of a record
    * under the same names, validates to `None` followed by that record. */
  lemma ValidatesTo(s: Schema, d: seq<Entry>, entries: seq<Entry>)
    requires |s| == |entries| + 1 && s[0].optional && Source(s[0], d).None?
    requires forall i :: 1 <= i < |s| ==>
      s[i].name == entries[i - 1].key && Source(s[i], d) == Some(entries[i - 1].value) && Accepts(s[i], entries[i - 1].value)
    ensures Validate(s, d) == Ok([Entry(s[0].name, JNull)] + entries)
  {
    assert forall i :: 0 <= i < |s| ==> FieldValid(s[i], d);
    var f := Validate(s, d).value;
    var g := [Entry(s[0].name, JNull)] + entries;
    assert Keys(f) == Names(s);
    assert f[0] == g[0];
    assert forall i :: 1 <= i < |s| ==> f[i] == entries[i - 1] == g[i];
    assert f == g;
  }

  /** The fixed-up literal lists the literal's keys, each with its value after the experience fix-up. */
  lemma FixedEntries(literal: seq<Entry>, years: Json, positive: bool)
    requires LiteralShape(literal) && "required_qualifications" in Keys(literal)
    ensures var form := ApplyExperience(literal, years, positive);
      |form| == |literal| && forall i :: 0 <= i < |literal| ==> form[i] == Entry(literal[i].key, AfterExperience(literal, years, positive, i))
  {
    var form := ApplyExperience(literal, years, positive);
    if positive && !Truthy(Lookup(literal, "required_qualifications").value) {
      StoreKeepsDict(literal, "required_qualifications", JString(ExperienceNote(years)));
    }
    forall i | 0 <= i < |literal|
      ensures form[i] == Entry(literal[i].key, AfterExperience(literal, years, positive, i))
    {
      assert Keys(form)[i] == Keys(literal)[i];
      LookupAt(form, i);
      FixedLookup(literal, years, positive, i);
    }
  }

  /** The fixed-up literal validates as the form: `company_id` is `None`, the other fields keep their values. */
  lemma FixedLiteralValidates(literal: seq<Entry>, years: Json, positive: bool)
    requires LiteralShape(literal) && "required_qualifications" in Keys(literal)
    ensures Validate(FormSchema, ApplyExperience(literal, years, positive)) ==
      Ok([Entry("company_id", JNull)] + ApplyExperience(literal, years, positive))
  {
    var form := ApplyExperience(literal, years, positive);
    CompanyIdAbsent(literal);
    FixedEntries(literal, years, positive);
    forall i | 1 <= i < |FormSchema|
      ensures FormSchema[i].name == form[i - 1].key
      ensures Source(FormSchema[i], form) == Some(form[i - 1].value) && Accepts(FormSchema[i], form[i - 1].value)
    {
      FinalSource(literal, years, positive, i);
      FixedAccepted(literal, years, positive, i - 1);
    }
    ValidatesTo(FormSchema, form, form);
  }

  /** Once the literal is built and the experience test has an outcome, the form validates, and it is the
    * literal after the experience fix-up, preceded by `company_id` as `None`: the title fallback never fires. */
  lemma FinishFormFields(rec: seq<Entry>, literal: seq<Entry>, positive: bool)
    requires LiteralShape(literal) && "required_qualifications" in Keys(literal)
    requires Lookup(literal, "title") == Some(GetOr(rec, "job_title", JString("")))
    ensures FinishForm(rec, literal, Ok(positive)) ==
      Ok([Entry("company_id", JNull)] + ApplyExperience(literal, GetOr(rec, "min_work_experience", JInt(0)), positive))
  {
    var years := GetOr(rec, "min_work_experience", JInt(0));
    TitleFallbackNoOp(rec, ApplyExperience(literal, years, positive));
    FixedLiteralValidates(literal, years, positive);
  }

  // ----- map_to_job_form as a whole (jd_enhancement_service.py:139-206) -----

  lemma LiteralTitle(rec: seq<Entry>)
    requires BuildEntries(rec, FormRules).Ok?
    ensures Lookup(BuildEntries(rec, FormRules).value, "title") == Some(GetOr(rec, "job_title", JString("")))
  {
    var literal := BuildEntries(rec, FormRules).value;
    FixedFormKeys(rec);
    assert FormRules[0] == Copy("title", "job_title");
    assert Keys(literal)[0] == "title";
    LookupAt(literal, 0);
  }

  lemma LiteralShapeOf(rec: seq<Entry>)
    requires Conforms(EnhancedSchema, rec)
    ensures BuildEntries(rec, FormRules).Ok?
    ensures LiteralShape(BuildEntries(rec, FormRules).value)
    ensures "required_qualifications" in Keys(BuildEntries(rec, FormRules).value)
  {
    LiteralFits(rec);
    FixedFormKeys(rec);
    FormKeysPresent(BuildEntries(rec, FormRules).value);
  }

  /** The enhanced schema types `min_work_experience` as an optional integer. */
  lemma ExperienceDefined(rec: seq<Entry>)
    requires Conforms(EnhancedSchema, rec)
    ensures GetOr(rec, "min_work_experience", JInt(0)).JInt? || GetOr(rec, "min_work_experience", JInt(0)) == JNull
    ensures ExperienceAboveZero(GetOr(rec, "min_work_experience", JInt(0))).Ok?
  {
    EnhancedWellFormed();
    assert EnhancedSchema[26] == FieldSpec("min_work_experience", Int, true, Some("experience"));
    ConformsLookup(EnhancedSchema, rec, 26);
  }

  /** Every record the enhancement step returns maps to a valid form: `company_id` is `None`, then the forty
    * values of the literal, with the experience note in place of a falsy `required_qualifications` when the
    * experience is positive. */
  lemma JobFormFields(rec: seq<Entry>)
    requires Conforms(EnhancedSchema, rec)
    ensures BuildEntries(rec, FormRules).Ok? && "required_qualifications" in Keys(BuildEntries(rec, FormRules).value)
    ensures ExperienceAboveZero(GetOr(rec, "min_work_experience", JInt(0))).Ok?
    ensures JobForm(rec) == Ok([Entry("company_id", JNull)] +
      ApplyExperience(BuildEntries(rec, FormRules).value, GetOr(rec, "min_work_experience", JInt(0)),
                      ExperienceAboveZero(GetOr(rec, "min_work_experience", JInt(0))).value))
  {
    LiteralShapeOf(rec);
    LiteralTitle(rec);
    ExperienceDefined(rec);
    var years := GetOr(rec, "min_work_experience", JInt(0));
    FinishFormFields(rec, BuildEntries(rec, FormRules).value, ExperienceAboveZero(years).value);
  }

  /** In the form, every field other than `required_qualifications` holds what its rule computes from the
    * enhanced record. */
  lemma JobFormLookup(rec: seq<Entry>, i: nat)
    requires Conforms(EnhancedSchema, rec) && i < |FormRules| && FormRules[i].target != "required_qualifications"
    ensures JobForm(rec).Ok?
    ensures Lookup(JobForm(rec).value, FormRules[i].target) == Some(RuleValue(rec, FormRules[i]).value)
  {
    JobFormFields(rec);
    LiteralShapeOf(rec);
    var literal := BuildEntries(rec, FormRules).value;
    var years := GetOr(rec, "min_work_experience", JInt(0));
    var form := ApplyExperience(literal, years, ExperienceAboveZero(years).value);
    assert Keys(literal)[i] == FormRules[i].target;
    LookupAt(literal, i);
    CompanyIdAbsent(literal);
    LookupCons(Entry("company_id", JNull), form);
  }

  /** `required_qualifications` is copied, unless the experience is positive and the copy is falsy: then it is
    * the experience note. */
  lemma RequiredQualificationsNote(rec: seq<Entry>)
    requires Conforms(EnhancedSchema, rec)
    ensures JobForm(rec).Ok?
    ensures var copied := GetOr(rec, "required_qualifications", JString(""));
      var years := GetOr(rec, "min_work_experience", JInt(0));
      Lookup(JobForm(rec).value, "required_qualifications") ==
        if years.JInt? && years.n > 0 && !Truthy(copied) then Some(JString("Minimum " + IntToStr(years.n) + " years of relevant experience"))
        else Some(copied)
  {
    JobFormFields(rec);
    ExperienceDefined(rec);
    LiteralRequiredQualifications(rec);
    var years := GetOr(rec, "min_work_experience", JInt(0));
    FormRequiredQualifications(BuildEntries(rec, FormRules).value, years, ExperienceAboveZero(years).value);
  }

  lemma FormRequiredQualifications(literal: seq<Entry>, years: Json, positive: bool)
    requires "required_qualifications" in Keys(literal)
    ensures Lookup([Entry("company_id", JNull)] + ApplyExperience(literal, years, positive), "required_qualifications") ==
      if positive && !Truthy(Lookup(literal, "required_qualifications").value) then Some(JString(ExperienceNote(years)))
      else Lookup(literal, "required_qualifications")
  {
    LookupCons(Entry("company_id", JNull), ApplyExperience(literal, years, positive));
  }

  lemma LiteralRequiredQualifications(rec: seq<Entry>)
    requires Conforms(EnhancedSchema, rec)
    ensures BuildEntries(rec, FormRules).Ok?
    ensures Lookup(BuildEntries(rec, FormRules).value, "required_qualifications") == Some(GetOr(rec, "required_qualifications", JString("")))
  {
    LiteralFits(rec);
    RequiredQualificationsRule();
    LiteralLookup(rec, 12);
  }

  lemma RequiredQualificationsRule()
    ensures FormRules[12] == Copy("required_qualifications", "required_qualifications")
  {
    assert FormRules[12] == (BasicRules + RoleRules)[12] == RoleRules[5];
  }

  /** Each rule's target finds the value that rule computes. */
  lemma LiteralLookup(rec: seq<Entry>, i: nat)
    requires BuildEntries(rec, FormRules).Ok? && i < |FormRules|
    ensures Lookup(BuildEntries(rec, FormRules).value, FormRules[i].target) == Some(RuleValue(rec, FormRules[i]).value)
  {
    FixedFormKeys(rec);
    var literal := BuildEntries(rec, FormRules).value;
    assert Keys(literal)[i] == FormRules[i].target;
    LookupAt(literal, i);
  }

  /** The duties come out as one text with a line per duty. */
  lemma DayToDayTasksJoined(rec: seq<Entry>, duties: seq<string>)
    requires Conforms(EnhancedSchema, rec) && Lookup(rec, "responsibilities") == Some(JArray(StringValues(duties)))
    ensures JobForm(rec).Ok?
    ensures Lookup(JobForm(rec).value, "day_to_day_tasks") == Some(JString(Join("\n", duties)))
  {
    DayToDayTasksRule();
    JobFormLookup(rec, 8);
    StringsOfValues(duties);
    assert RuleValue(rec, FormRules[8]) == Ok(JString(Join("\n", duties)));
  }

  lemma DayToDayTasksRule()
    ensures FormRules[8] == JoinList("day_to_day_tasks", "responsibilities")
  {
    assert FormRules[8] == (BasicRules + RoleRules)[8] == RoleRules[1];
  }

  lemma DayToDayTasksExample()
    ensures Join("\n", ["Design APIs", "Review code"]) == "Design APIs\nReview code"
  {
  }

  /** The experience test as written differs from the corrected one only on a `None` experience. */
  lemma AsWrittenAgrees(rec: seq<Entry>)
    requires GetOr(rec, "min_work_experience", JInt(0)) != JNull
    ensures JobFormAsWritten(rec) == JobForm(rec)
  {
  }

  /** A valid enhanced record whose optional `min_work_experience` is `None` maps under the corrected test,
    * but as written the comparison `None > 0` raises. */
  lemma AsWrittenRaisesWithoutExperience(rec: seq<Entry>)
    requires Conforms(EnhancedSchema, rec) && Lookup(rec, "min_work_experience") == Some(JNull)
    ensures JobForm(rec).Ok?
    ensures JobFormAsWritten(rec) == Err(CompareTypeError)
  {
    JobFormFields(rec);
  }

  /** `map_to_job_form`: the literal, then the two fix-ups applied in place, then validation. The experience
    * test is the source's `min_experience > 0`, which raises on `None`. */
  method MapToJobForm(rec: seq<Entry>) returns (r: Result<seq<Entry>, Error>)
    ensures r == JobFormAsWritten(rec)
  {
    var built := BuildEntries(rec, FormRules);
    if built.Err? {
      return Err(built.error);
    }
    var form := built.value;
    FixedFormKeys(rec);
    FormKeysPresent(form);
    var years := GetOr(rec, "min_work_experience", JInt(0));
    var positive := GreaterThanZero(years);
    if positive.Err? {
      return Err(positive.error);
    }
    if positive.value && !Truthy(Lookup(form, "required_qualifications").value) {
      form := Store(form, "required_qualifications", JString(ExperienceNote(years)));
    }
    if !Truthy(Lookup(form, "title").value) && Lookup(rec, "job_title").Some? && Truthy(Lookup(rec, "job_title").value) {
      form := Store(form, "title", Lookup(rec, "job_title").value);
    }
    r := Validate(FormSchema, form);
  }

  // ----- enhance_job_description and process_job_description (jd_enhancement_service.py:29-125, 213-242) -----

  /** The enhancement step as written: the input is defaulted with `.get` and validated, then the model's response
    * to the prompts is normalised against the enhanced schema; an error from either is re-raised unchanged. */
  function EnhanceJobDescription(jd: seq<Entry>, response: Result<Json, Error>): (r: Result<seq<Entry>, Error>)
    ensures r.Ok? ==> Conforms(EnhancedSchema, r.value)
    ensures PrepareInputAsWritten(jd).Err? ==> r == Err(PrepareInputAsWritten(jd).error)
    ensures PrepareInputAsWritten(jd).Ok? ==> r == GptService.Extract(response, EnhancedSchema)
  {
    match PrepareInputAsWritten(jd)
    case Err(e) => Err(e)
    case Ok(_) => GptService.Extract(response, EnhancedSchema)
  }

  /** The enhancement step with the corrected defaulting, where a `None` argument takes its default. */
  function EnhanceCorrected(jd: seq<Entry>, response: Result<Json, Error>): (r: Result<seq<Entry>, Error>)
    ensures r.Ok? ==> Conforms(EnhancedSchema, r.value)
    ensures PrepareInput(jd).Err? ==> r == Err(PrepareInput(jd).error)
    ensures PrepareInput(jd).Ok? ==> r == GptService.Extract(response, EnhancedSchema)
  {
    match PrepareInput(jd)
    case Err(e) => Err(e)
    case Ok(_) => GptService.Extract(response, EnhancedSchema)
  }

  /** `{"status": "success", "data": EnhancementResult(...).dict()}`. */
  function SuccessReport(enhanced: seq<Entry>, form: seq<Entry>): Json
  {
    JObject([Entry("status", JString("success")),
             Entry("data", JObject([Entry("enhanced_jd", JObject(enhanced)), Entry("job_form_data", JObject(form))]))])
  }

  /** What follows a successful enhancement: the mapper's result, then `EnhancementResult`, which validates the
    * enhanced record once more. */
  function Report(enhanced: seq<Entry>, form: Result<seq<Entry>, Error>): Result<Json, Error>
  {
    match form
    case Err(e) => Err(e)
    case Ok(f) =>
      match Validate(EnhancedSchema, enhanced)
      case Err(e) => Err(e)
      case Ok(checked) => Ok(SuccessReport(checked, f))
  }

  /** `process_job_description` as written: enhance, map, wrap both in `EnhancementResult` and report success. */
  function ProcessJobDescription(jd: seq<Entry>, response: Result<Json, Error>): (r: Result<Json, Error>)
    ensures EnhanceJobDescription(jd, response).Err? ==> r == Err(EnhanceJobDescription(jd, response).error)
    ensures r.Ok? ==> EnhanceJobDescription(jd, response).Ok? && JobFormAsWritten(EnhanceJobDescription(jd, response).value).Ok?
  {
    match EnhanceJobDescription(jd, response)
    case Err(e) => Err(e)
    case Ok(enhanced) => Report(enhanced, JobFormAsWritten(enhanced))
  }

  /** `process_job_description` with both corrections: the `None`-aware defaulting and experience test. */
  function ProcessCorrected(jd: seq<Entry>, response: Result<Json, Error>): (r: Result<Json, Error>)
    ensures EnhanceCorrected(jd, response).Err? ==> r == Err(EnhanceCorrected(jd, response).error)
    ensures r.Ok? ==> EnhanceCorrected(jd, response).Ok? && JobForm(EnhanceCorrected(jd, response).value).Ok?
  {
    match EnhanceCorrected(jd, response)
    case Err(e) => Err(e)
    case Ok(enhanced) => Report(enhanced, JobForm(enhanced))
  }

  /** A conforming enhanced record passes the second validation unchanged. */
  lemma ReportConforming(enhanced: seq<Entry>, form: seq<Entry>)
    requires Conforms(EnhancedSchema, enhanced)
    ensures Report(enhanced, Ok(form)) == Ok(SuccessReport(enhanced, form))
  {
    EnhancedWellFormed();
    ValidateIdempotent(EnhancedSchema, enhanced);
  }

  /** As written, once enhancement succeeds with an experience that is not `None`, the process succeeds and
    * reports the enhanced record unchanged beside its form. */
  lemma ProcessAsWrittenSucceeds(jd: seq<Entry>, response: Result<Json, Error>)
    requires EnhanceJobDescription(jd, response).Ok?
    requires Lookup(EnhanceJobDescription(jd, response).value, "min_work_experience") != Some(JNull)
    ensures JobFormAsWritten(EnhanceJobDescription(jd, response).value).Ok?
    ensures ProcessJobDescription(jd, response) ==
      Ok(SuccessReport(EnhanceJobDescription(jd, response).value, JobFormAsWritten(EnhanceJobDescription(jd, response).value).value))
  {
    var enhanced := EnhanceJobDescription(jd, response).value;
    JobFormFields(enhanced);
    AsWrittenAgrees(enhanced);
    ReportConforming(enhanced, JobFormAsWritten(enhanced).value);
  }

  /** As written, an enhanced record whose experience is `None` makes the process raise the comparison's `TypeError`. */
  lemma ProcessAsWrittenRaisesWithoutExperience(jd: seq<Entry>, response: Result<Json, Error>)
    requires EnhanceJobDescription(jd, response).Ok?
    requires Lookup(EnhanceJobDescription(jd, response).value, "min_work_experience") == Some(JNull)
    ensures ProcessJobDescription(jd, response) == Err(CompareTypeError)
  {
    AsWrittenRaisesWithoutExperience(EnhanceJobDescription(jd, response).value);
  }

  /** As written, the process fails exactly when the input model rejects the defaulted arguments, when extraction
    * fails, or when the enhanced record's experience is `None`. */
  lemma ProcessAsWrittenFailsIff(jd: seq<Entry>, response: Result<Json, Error>)
    ensures ProcessJobDescription(jd, response).Err? <==>
      PrepareInputAsWritten(jd).Err? || GptService.Extract(response, EnhancedSchema).Err? ||
      Lookup(GptService.Extract(response, EnhancedSchema).value, "min_work_experience") == Some(JNull)
  {
    if EnhanceJobDescription(jd, response).Ok? {
      if Lookup(EnhanceJobDescription(jd, response).value, "min_work_experience") == Some(JNull) {
        ProcessAsWrittenRaisesWithoutExperience(jd, response);
      } else {
        ProcessAsWrittenSucceeds(jd, response);
      }
    }
  }

  /** As written, the valid extraction record with `None` optionals fails before the model is asked, with the input
    * model's validation error rather than an extraction failure. */
  lemma ProcessAsWrittenRejectsExtractedNone(response: Result<Json, Error>)
    ensures ProcessJobDescription(ExtractedWithoutOptionals, response).Err?
    ensures ProcessJobDescription(ExtractedWithoutOptionals, response).error.ValidationFailed?
  {
    AsWrittenRejectsExtractedNone();
  }

  /** With the corrections, once enhancement succeeds the process succeeds: it reports the enhanced record
    * unchanged beside its form. */
  lemma ProcessSucceeds(jd: seq<Entry>, response: Result<Json, Error>)
    requires EnhanceCorrected(jd, response).Ok?
    ensures JobForm(EnhanceCorrected(jd, response).value).Ok?
    ensures ProcessCorrected(jd, response) ==
      Ok(SuccessReport(EnhanceCorrected(jd, response).value, JobForm(EnhanceCorrected(jd, response).value).value))
  {
    var enhanced := EnhanceCorrected(jd, response).value;
    JobFormFields(enhanced);
    ReportConforming(enhanced, JobForm(enhanced).value);
  }

  /** With the corrections, for a record extraction produced, the whole process fails exactly when the model's
    * answer cannot be normalised into the enhanced schema, and then with the extraction error. */
  lemma ProcessFailsOnlyInExtraction(jd: seq<Entry>, response: Result<Json, Error>)
    requires Conforms(ExtractionSchema, jd)
    ensures ProcessCorrected(jd, response).Err? <==> GptService.Extract(response, EnhancedSchema).Err?
    ensures ProcessCorrected(jd, response).Err? ==> ProcessCorrected(jd, response).error.GptExtractionFailed?
  {
    PrepareInputAcceptsExtraction(jd);
    if EnhanceCorrected(jd, response).Ok? {
      ProcessSucceeds(jd, response);
    }
  }

  /** Where no argument is `None` and the enhanced record's experience is not `None`, the process as written and
    * the corrected one agree. */
  lemma ProcessAgrees(jd: seq<Entry>, response: Result<Json, Error>)
    requires forall i :: 0 <= i < 5 ==> Lookup(jd, EnhancementInputSchema[i].name) != Some(JNull)
    requires GptService.Extract(response, EnhancedSchema).Ok? ==>
      Lookup(GptService.Extract(response, EnhancedSchema).value, "min_work_experience") != Some(JNull)
    ensures ProcessJobDescription(jd, response) == ProcessCorrected(jd, response)
  {
    PrepareInputAgrees(jd);
    assert EnhanceJobDescription(jd, response) == EnhanceCorrected(jd, response);
    if EnhanceCorrected(jd, response).Ok? {
      var enhanced := EnhanceCorrected(jd, response).value;
      assert GetOr(enhanced, "min_work_experience", JInt(0)) != JNull;
      AsWrittenAgrees(enhanced);
    }
  }
}
