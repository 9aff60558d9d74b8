/**
 * The declared record shapes of the pipeline (models/schemas.py) and the part of pydantic
 * validation the pipeline depends on: a field is populated from its alias when the alias is a
 * key of the input, otherwise from its own name (`populate_by_name`); a required field must be
 * present; a present value must have the declared kind, and an `Optional` field also takes
 * `None`; keys the schema does not declare are ignored. `.dict()` lists every declared field,
 * in declaration order, under its own name, with `None` for an absent optional field.
 */
module Schemas {
  import opened Wrappers
  import opened PyJson
  import opened Errors

  /** The declared type of a field, with its `Optional[...]` wrapper removed. */
  datatype Kind =
    | Str            // str
    | Int            // int
    | StrList        // List[str]
    | StrOrStrList   // Union[str, List[str]]

  /** One declared field: `optional` means `Optional[...]` with default `None`. */
  datatype FieldSpec = FieldSpec(name: string, kind: Kind, optional: bool, alias: Option<string>)

  /** A model class: its fields in declaration order. */
  type Schema = seq<FieldSpec>

  function Names(s: Schema): (ns: seq<string>)
    ensures |ns| == |s|
    ensures forall i :: 0 <= i < |s| ==> ns[i] == s[i].name
  {
    seq(|s|, i requires 0 <= i < |s| => s[i].name)
  }

  predicate Disjoint(a: seq<string>, b: seq<string>)
  {
    forall i, j :: 0 <= i < |a| && 0 <= j < |b| ==> a[i] != b[j]
  }

  function AliasesOf(s: Schema): (al: seq<Option<string>>)
    ensures |al| == |s|
    ensures forall i :: 0 <= i < |s| ==> al[i] == s[i].alias
  {
    seq(|s|, i requires 0 <= i < |s| => s[i].alias)
  }

  /** None of the declared `aliases` is one of `names`. */
  predicate Avoids(aliases: seq<Option<string>>, names: seq<string>)
  {
    forall i, j :: 0 <= i < |aliases| && 0 <= j < |names| && aliases[i].Some? ==> aliases[i].value != names[j]
  }

  /** Field names are distinct and no alias is also a field name. */
  predicate WellFormed(s: Schema)
  {
    Distinct(Names(s)) && Avoids(AliasesOf(s), Names(s))
  }

  /** `isinstance` checks behind each declared kind (no coercion is modelled). */
  predicate HasKind(k: Kind, v: Json)
  {
    match k
    case Str => v.JString?
    case Int => v.JInt?
    case StrList => v.JArray? && AllStrings(v.items)
    case StrOrStrList => v.JString? || (v.JArray? && AllStrings(v.items))
  }

  predicate Accepts(f: FieldSpec, v: Json)
  {
    HasKind(f.kind, v) || (f.optional && v == JNull)
  }

  /** The input value a field is populated from: its alias first, then its own name. */
  function Source(f: FieldSpec, d: seq<Entry>): (r: Option<Json>)
    ensures r.None? <==> (f.alias.None? || f.alias.value !in Keys(d)) && f.name !in Keys(d)
  {
    if f.alias.Some? && f.alias.value in Keys(d) then Lookup(d, f.alias.value) else Lookup(d, f.name)
  }

  /** A field passes validation: present with an accepted value, or absent and optional. */
  predicate FieldValid(f: FieldSpec, d: seq<Entry>)
  {
    match Source(f, d)
    case None => f.optional
    case Some(v) => Accepts(f, v)
  }

  /** The names of the fields that fail validation, in declaration order. */
  function Invalid(s: Schema, d: seq<Entry>): (bad: seq<string>)
    ensures bad == [] <==> forall i :: 0 <= i < |s| ==> FieldValid(s[i], d)
    ensures forall n :: n in bad ==> n in Names(s)
  {
    if s == [] then []
    else
      var rest := Invalid(s[1..], d);
      assert forall i :: 1 <= i < |s| ==> s[1..][i - 1] == s[i];
      assert forall n :: n in rest ==> n in Names(s);
      (if FieldValid(s[0], d) then [] else [s[0].name]) + rest
  }

  /** A record that `.dict()` of a valid instance could return. */
  predicate Conforms(s: Schema, rec: seq<Entry>)
  {
    |rec| == |s| && forall i :: 0 <= i < |s| ==> rec[i].key == s[i].name && Accepts(s[i], rec[i].value)
  }

  /** The fields of an instance built from `d`, as `.dict()` lists them. */
  function Instance(s: Schema, d: seq<Entry>): (rec: seq<Entry>)
    ensures Keys(rec) == Names(s)
    ensures forall i :: 0 <= i < |s| ==> Source(s[i], d) == Some(rec[i].value) || (Source(s[i], d).None? && rec[i].value == JNull)
  {
    seq(|s|, i requires 0 <= i < |s| => Entry(s[i].name, match Source(s[i], d) case Some(v) => v case None => JNull))
  }

  /** `Model(**d).dict()`, or the list of fields that failed. */
  function Validate(s: Schema, d: seq<Entry>): (r: Result<seq<Entry>, Error>)
    ensures r.Ok? <==> forall i :: 0 <= i < |s| ==> FieldValid(s[i], d)
    ensures r.Ok? ==> Conforms(s, r.value) && Keys(r.value) == Names(s)
    ensures r.Err? ==> r.error.ValidationFailed? && r.error.fields != []
  {
    var bad := Invalid(s, d);
    if bad == [] then Ok(Instance(s, d)) else Err(ValidationFailed(bad))
  }

  /** Validation never looks at undeclared keys: two inputs that agree on every name and alias validate alike. */
  lemma ValidateLocal(s: Schema, d: seq<Entry>, e: seq<Entry>)
    requires forall i :: 0 <= i < |s| ==> Source(s[i], d) == Source(s[i], e)
    ensures Validate(s, d) == Validate(s, e)
  {
    ValidateLocalInvalid(s, d, e);
    assert Instance(s, d) == Instance(s, e);
  }

  lemma {:induction false} ValidateLocalInvalid(s: Schema, d: seq<Entry>, e: seq<Entry>)
    requires forall i :: 0 <= i < |s| ==> Source(s[i], d) == Source(s[i], e)
    ensures Invalid(s, d) == Invalid(s, e)
  {
    if s != [] {
      assert forall i :: 1 <= i < |s| ==> s[1..][i - 1] == s[i];
      ValidateLocalInvalid(s[1..], d, e);
    }
  }

  /** Re-validating the `.dict()` of a valid instance gives it back unchanged. */
  lemma ValidateIdempotent(s: Schema, rec: seq<Entry>)
    requires WellFormed(s) && Conforms(s, rec)
    ensures Validate(s, rec) == Ok(rec)
  {
    assert Keys(rec) == Names(s);
    forall i | 0 <= i < |s|
      ensures Source(s[i], rec) == Some(rec[i].value)
    {
      LookupAt(rec, i);
    }
    assert Instance(s, rec) == rec;
  }

  /** In a record that conforms to a schema with distinct names, each field's name finds its value. */
  lemma ConformsLookup(s: Schema, rec: seq<Entry>, i: nat)
    requires Distinct(Names(s)) && Conforms(s, rec) && i < |s|
    ensures Lookup(rec, s[i].name) == Some(rec[i].value) && Accepts(s[i], rec[i].value)
  {
    assert Keys(rec) == Names(s);
    LookupAt(rec, i);
  }

  /** The names of the required fields, in declaration order. */
  function Required(s: Schema): seq<string>
  {
    if s == [] then [] else (if s[0].optional then [] else [s[0].name]) + Required(s[1..])
  }

  /** A name is listed as required exactly when some field of that name is not optional. */
  lemma {:induction false} RequiredMembers(s: Schema, n: string)
    ensures n in Required(s) <==> exists i :: 0 <= i < |s| && !s[i].optional && s[i].name == n
  {
    if s != [] {
      RequiredMembers(s[1..], n);
      assert forall i :: 1 <= i < |s| ==> s[1..][i - 1] == s[i];
      if n in Required(s[1..]) {
        var i :| 0 <= i < |s[1..]| && !s[1..][i].optional && s[1..][i].name == n;
        assert !s[i + 1].optional && s[i + 1].name == n;
      }
    }
  }

  /** An input without any field the schema requires fails, and names exactly the required fields. */
  lemma EmptyInputMissesRequired(s: Schema)
    ensures Validate(s, []) == if Required(s) == [] then Ok(Instance(s, [])) else Err(ValidationFailed(Required(s)))
  {
    EmptyInvalid(s);
  }

  lemma {:induction false} EmptyInvalid(s: Schema)
    ensures Invalid(s, []) == Required(s)
  {
    if s != [] {
      EmptyInvalid(s[1..]);
    }
  }

  // ----- models/schemas.py -----

  /** `JobDescriptionSchema`: what the extraction step asks the model for. */
  const ExtractionSchema: Schema := [
    FieldSpec("job_title", Str, false, None),
    FieldSpec("job_description", Str, false, None),
    FieldSpec("industry_name", Str, false, None),
    FieldSpec("required_skills", StrList, true, None),
    FieldSpec("min_work_experience", Int, true, None)
  ]

  /** `EnhancedJobDescriptionSchema`, basic information, industry, posting metadata and role description. */
  const EnhancedOverview: Schema := [
    FieldSpec("job_title", Str, false, None),
    FieldSpec("job_code", Str, true, None),
    FieldSpec("job_level", Str, true, None),
    FieldSpec("department", Str, true, None),
    FieldSpec("job_function", Str, true, None),
    FieldSpec("industry_name", Str, false, Some("industry")),
    FieldSpec("contract_duration", Str, true, None),
    FieldSpec("time_commitment", Str, true, None),
    FieldSpec("role_summary", Str, false, Some("summary")),
    FieldSpec("responsibilities", StrList, false, Some("duties")),
    FieldSpec("performance_indicators", StrList, false, Some("key_metrics")),
    FieldSpec("decision_making", Str, true, Some("decision_making_authority")),
    FieldSpec("stakeholder_interactions", Str, true, Some("key_stakeholders"))
  ]

  /** `EnhancedJobDescriptionSchema`, requirements breakdown and skills classification. */
  const EnhancedRequirements: Schema := [
    FieldSpec("required_skills", StrList, false, Some("skills")),
    FieldSpec("required_qualifications", Str, true, Some("qualifications")),
    FieldSpec("preferred_qualifications", Str, true, Some("preferred")),
    FieldSpec("mandatory_certifications", Str, true, Some("certifications")),
    FieldSpec("legal_eligibility", Str, true, None),
    FieldSpec("background_checks", Str, true, None),
    FieldSpec("clearance_level", Str, true, None),
    FieldSpec("hard_skills", StrList, true, Some("technical_skills")),
    FieldSpec("soft_skills", StrList, true, Some("interpersonal_skills")),
    FieldSpec("domain_expertise", StrList, true, Some("domain_knowledge")),
    FieldSpec("methodologies", StrList, true, None),
    FieldSpec("languages", StrList, true, None),
    FieldSpec("skills_priority", StrList, true, None)
  ]

  /** `EnhancedJobDescriptionSchema`, experience, compensation and work environment. */
  const EnhancedTerms: Schema := [
    FieldSpec("min_work_experience", Int, true, Some("experience")),
    FieldSpec("base_salary", Str, true, Some("compensation")),
    FieldSpec("bonus_structure", Str, true, Some("bonuses")),
    FieldSpec("equity_options", Str, true, None),
    FieldSpec("benefits", Str, true, None),
    FieldSpec("relocation_assistance", Str, true, Some("relocation")),
    FieldSpec("visa_sponsorship", Str, true, Some("visa")),
    FieldSpec("work_model", Str, true, Some("work_environment")),
    FieldSpec("work_locations", Str, true, Some("locations")),
    FieldSpec("travel_requirements", Str, true, Some("travel")),
    FieldSpec("shift_type", Str, true, Some("shifts"))
  ]

  /** `EnhancedJobDescriptionSchema`, career path information. */
  const EnhancedCareer: Schema := [
    FieldSpec("growth_opportunities", Str, true, Some("career_development")),
    FieldSpec("training_development", Str, true, Some("training")),
    FieldSpec("mentorship", Str, true, None),
    FieldSpec("succession_planning", Str, true, None),
    FieldSpec("culture_page_link", Str, true, None),
    FieldSpec("careers_page_link", Str, true, None)
  ]

  /** `EnhancedJobDescriptionSchema`: the record the enhancement step asks the model for. */
  const EnhancedSchema: Schema := EnhancedOverview + EnhancedRequirements + EnhancedTerms + EnhancedCareer

  /** `JDFormData`, the title, basic job information and posting metadata. */
  const FormBasics: Schema := [
    FieldSpec("company_id", Int, true, None),
    FieldSpec("title", Str, false, None),
    FieldSpec("job_code", Str, true, None),
    FieldSpec("job_level", Str, true, None),
    FieldSpec("department", Str, true, None),
    FieldSpec("job_function", Str, true, None),
    FieldSpec("contract_duration", Str, true, None),
    FieldSpec("time_commitment", Str, true, None)
  ]

  /** `JDFormData`, role description and requirements breakdown. */
  const FormRole: Schema := [
    FieldSpec("job_summary", Str, true, None),
    FieldSpec("day_to_day_tasks", Str, true, None),
    FieldSpec("performance_indicators", Str, true, None),
    FieldSpec("decision_making", Str, true, None),
    FieldSpec("stakeholder_interactions", Str, true, None),
    FieldSpec("required_qualifications", Str, true, None),
    FieldSpec("preferred_qualifications", Str, true, None),
    FieldSpec("mandatory_certifications", Str, true, None),
    FieldSpec("legal_eligibility", Str, true, None),
    FieldSpec("background_checks", Str, true, None),
    FieldSpec("clearance_level", Str, true, None)
  ]

  /** `JDFormData`, skills classification and compensation. */
  const FormSkills: Schema := [
    FieldSpec("hard_skills", Str, true, None),
    FieldSpec("soft_skills", Str, true, None),
    FieldSpec("domain_expertise", Str, true, None),
    FieldSpec("methodologies", Str, true, None),
    FieldSpec("languages", Str, true, None),
    FieldSpec("skills_priority", StrOrStrList, true, None),
    FieldSpec("base_salary", Str, true, None),
    FieldSpec("bonus_structure", Str, true, None),
    FieldSpec("equity_options", Str, true, None),
    FieldSpec("benefits", Str, true, None),
    FieldSpec("relocation_assistance", Str, true, None),
    FieldSpec("visa_sponsorship", Str, true, None)
  ]

  /** `JDFormData`, work environment and career path. */
  const FormWork: Schema := [
    FieldSpec("work_model", Str, true, None),
    FieldSpec("work_locations", Str, true, None),
    FieldSpec("travel_requirements", Str, true, None),
    FieldSpec("shift_type", Str, true, None),
    FieldSpec("growth_opportunities", Str, true, None),
    FieldSpec("training_development", Str, true, None),
    FieldSpec("mentorship", Str, true, None),
    FieldSpec("succession_planning", Str, true, None),
    FieldSpec("culture_page_link", Str, true, None),
    FieldSpec("careers_page_link", Str, true, None)
  ]

  /** `JDFormData`: the flat record the job form is filled from. */
  const FormSchema: Schema := FormBasics + FormRole + FormSkills + FormWork

  // ----- Well-formedness, checked section by section -----
  // Each section's field names and aliases are listed once more as plain lists, and the
  // `*Columns` lemmas tie them to the rows above: distinctness is then checked by comparing
  // string literals directly, a few sections at a time.

  lemma NamesConcat(a: Schema, b: Schema)
    ensures Names(a + b) == Names(a) + Names(b)
    ensures AliasesOf(a + b) == AliasesOf(a) + AliasesOf(b)
  {
  }

  lemma DistinctConcat(a: seq<string>, b: seq<string>)
    requires Distinct(a) && Distinct(b) && Disjoint(a, b)
    ensures Distinct(a + b)
  {
  }

  lemma DisjointConcat(a: seq<string>, b: seq<string>, c: seq<string>)
    requires Disjoint(a, c) && Disjoint(b, c)
    ensures Disjoint(a + b, c)
  {
  }

  lemma AvoidsConcat(x: seq<Option<string>>, y: seq<Option<string>>, n: seq<string>, m: seq<string>)
    requires Avoids(x, n) && Avoids(x, m) && Avoids(y, n) && Avoids(y, m)
    ensures Avoids(x + y, n + m)
  {
    forall i, j | 0 <= i < |x + y| && 0 <= j < |n + m| && (x + y)[i].Some?
      ensures (x + y)[i].value != (n + m)[j]
    {
      if i < |x| {
        if j < |n| { assert (n + m)[j] == n[j]; } else { assert (n + m)[j] == m[j - |n|]; }
      } else {
        if j < |n| { assert (n + m)[j] == n[j]; } else { assert (n + m)[j] == m[j - |n|]; }
      }
    }
  }

  const OverviewNames: seq<string> := ["job_title", "job_code", "job_level", "department", "job_function",
    "industry_name", "contract_duration", "time_commitment", "role_summary", "responsibilities",
    "performance_indicators", "decision_making", "stakeholder_interactions"]
  const OverviewAliases: seq<Option<string>> := [None, None, None, None, None, Some("industry"), None, None,
    Some("summary"), Some("duties"), Some("key_metrics"), Some("decision_making_authority"), Some("key_stakeholders")]
  const RequirementsNames: seq<string> := ["required_skills", "required_qualifications", "preferred_qualifications",
    "mandatory_certifications", "legal_eligibility", "background_checks", "clearance_level", "hard_skills",
    "soft_skills", "domain_expertise", "methodologies", "languages", "skills_priority"]
  const RequirementsAliases: seq<Option<string>> := [Some("skills"), Some("qualifications"), Some("preferred"),
    Some("certifications"), None, None, None, Some("technical_skills"), Some("interpersonal_skills"),
    Some("domain_knowledge"), None, None, None]
  const TermsNames: seq<string> := ["min_work_experience", "base_salary", "bonus_structure", "equity_options",
    "benefits", "relocation_assistance", "visa_sponsorship", "work_model", "work_locations", "travel_requirements",
    "shift_type"]
  const TermsAliases: seq<Option<string>> := [Some("experience"), Some("compensation"), Some("bonuses"), None, None,
    Some("relocation"), Some("visa"), Some("work_environment"), Some("locations"), Some("travel"), Some("shifts")]
  const CareerNames: seq<string> := ["growth_opportunities", "training_development", "mentorship",
    "succession_planning", "culture_page_link", "careers_page_link"]
  const CareerAliases: seq<Option<string>> := [Some("career_development"), Some("training"), None, None, None, None]

  lemma OverviewColumns()
    ensures Names(EnhancedOverview) == OverviewNames && AliasesOf(EnhancedOverview) == OverviewAliases
  {
  }

  lemma RequirementsColumns()
    ensures Names(EnhancedRequirements) == RequirementsNames && AliasesOf(EnhancedRequirements) == RequirementsAliases
  {
  }

  lemma TermsColumns()
    ensures Names(EnhancedTerms) == TermsNames && AliasesOf(EnhancedTerms) == TermsAliases
  {
  }

  lemma CareerColumns()
    ensures Names(EnhancedCareer) == CareerNames && AliasesOf(EnhancedCareer) == CareerAliases
  {
  }

  lemma FirstSectionsDistinct()
    ensures Distinct(OverviewNames) && Distinct(RequirementsNames)
  {
  }

  lemma LastSectionsDistinct()
    ensures Distinct(TermsNames) && Distinct(CareerNames) && Disjoint(TermsNames, CareerNames)
  {
  }

  lemma OverviewRequirementsDisjoint()
    ensures Disjoint(OverviewNames, RequirementsNames)
  {
  }

  lemma OverviewDisjointLater()
    ensures Disjoint(OverviewNames, TermsNames) && Disjoint(OverviewNames, CareerNames)
  {
  }

  lemma RequirementsDisjointLater()
    ensures Disjoint(RequirementsNames, TermsNames) && Disjoint(RequirementsNames, CareerNames)
  {
  }

  lemma OverviewAliasesAvoid()
    ensures Avoids(OverviewAliases, OverviewNames) && Avoids(OverviewAliases, RequirementsNames)
    ensures Avoids(OverviewAliases, TermsNames) && Avoids(OverviewAliases, CareerNames)
  {
  }

  lemma RequirementsAliasesAvoid()
    ensures Avoids(RequirementsAliases, OverviewNames) && Avoids(RequirementsAliases, RequirementsNames)
    ensures Avoids(RequirementsAliases, TermsNames) && Avoids(RequirementsAliases, CareerNames)
  {
  }

  lemma TermsAliasesAvoid()
    ensures Avoids(TermsAliases, OverviewNames) && Avoids(TermsAliases, RequirementsNames)
    ensures Avoids(TermsAliases, TermsNames) && Avoids(TermsAliases, CareerNames)
  {
  }

  lemma CareerAliasesAvoid()
    ensures Avoids(CareerAliases, OverviewNames) && Avoids(CareerAliases, RequirementsNames)
    ensures Avoids(CareerAliases, TermsNames) && Avoids(CareerAliases, CareerNames)
  {
  }

  /** The enhanced schema's field names, section by section. */
  lemma EnhancedColumns()
    ensures Names(EnhancedSchema) == OverviewNames + RequirementsNames + TermsNames + CareerNames
    ensures AliasesOf(EnhancedSchema) == OverviewAliases + RequirementsAliases + TermsAliases + CareerAliases
  {
    var o, r, t, c := EnhancedOverview, EnhancedRequirements, EnhancedTerms, EnhancedCareer;
    OverviewColumns(); RequirementsColumns(); TermsColumns(); CareerColumns();
    NamesConcat(o, r); NamesConcat(o + r, t); NamesConcat(o + r + t, c);
  }

  /** No two fields of the enhanced schema share a name. */
  lemma EnhancedNamesDistinct()
    ensures Distinct(Names(EnhancedSchema))
  {
    EnhancedColumns();
    FirstSectionsDistinct(); LastSectionsDistinct(); OverviewRequirementsDisjoint(); OverviewDisjointLater(); RequirementsDisjointLater();
    DistinctConcat(OverviewNames, RequirementsNames);
    DisjointConcat(OverviewNames, RequirementsNames, TermsNames);
    DistinctConcat(OverviewNames + RequirementsNames, TermsNames);
    DisjointConcat(OverviewNames, RequirementsNames, CareerNames);
    DisjointConcat(OverviewNames + RequirementsNames, TermsNames, CareerNames);
    DistinctConcat(OverviewNames + RequirementsNames + TermsNames, CareerNames);
  }

  /** No alias of the enhanced schema is the name of one of its fields. */
  lemma EnhancedAliasesAvoidNames()
    ensures Avoids(AliasesOf(EnhancedSchema), Names(EnhancedSchema))
  {
    EnhancedColumns();
    OverviewAliasesAvoid(); RequirementsAliasesAvoid(); TermsAliasesAvoid(); CareerAliasesAvoid();
    AvoidsConcat(OverviewAliases, RequirementsAliases, OverviewNames, RequirementsNames);
    AvoidsConcat(OverviewAliases, RequirementsAliases, TermsNames, CareerNames);
    AvoidsConcat(TermsAliases, CareerAliases, OverviewNames, RequirementsNames);
    AvoidsConcat(TermsAliases, CareerAliases, TermsNames, CareerNames);
    AvoidsConcat(OverviewAliases + RequirementsAliases, TermsAliases + CareerAliases,
                 OverviewNames + RequirementsNames, TermsNames + CareerNames);
    assert OverviewNames + RequirementsNames + (TermsNames + CareerNames)
        == OverviewNames + RequirementsNames + TermsNames + CareerNames;
    assert OverviewAliases + RequirementsAliases + (TermsAliases + CareerAliases)
        == OverviewAliases + RequirementsAliases + TermsAliases + CareerAliases;
  }

  lemma EnhancedWellFormed()
    ensures WellFormed(EnhancedSchema)
  {
    EnhancedNamesDistinct();
    EnhancedAliasesAvoidNames();
  }

  const FormBasicsNames: seq<string> := ["company_id", "title", "job_code", "job_level", "department",
    "job_function", "contract_duration", "time_commitment"]
  const FormRoleNames: seq<string> := ["job_summary", "day_to_day_tasks", "performance_indicators",
    "decision_making", "stakeholder_interactions", "required_qualifications", "preferred_qualifications",
    "mandatory_certifications", "legal_eligibility", "background_checks", "clearance_level"]
  const FormSkillsNames: seq<string> := ["hard_skills", "soft_skills", "domain_expertise", "methodologies",
    "languages", "skills_priority", "base_salary", "bonus_structure", "equity_options", "benefits",
    "relocation_assistance", "visa_sponsorship"]
  const FormWorkNames: seq<string> := ["work_model", "work_locations", "travel_requirements", "shift_type",
    "growth_opportunities", "training_development", "mentorship", "succession_planning", "culture_page_link",
    "careers_page_link"]

  /** The form's field names, section by section; it declares no alias. */
  lemma FormColumns()
    ensures Names(FormSchema) == FormBasicsNames + FormRoleNames + FormSkillsNames + FormWorkNames
    ensures forall i :: 0 <= i < |FormSchema| ==> FormSchema[i].alias.None?
  {
    var b, r, k, w := FormBasics, FormRole, FormSkills, FormWork;
    FormFirstColumns(); FormLastColumns();
    NamesConcat(b, r); NamesConcat(b + r, k); NamesConcat(b + r + k, w);
    FormUnaliased();
  }

  lemma FormUnaliased()
    ensures Unaliased(FormSchema)
  {
    var b, r, k, w := FormBasics, FormRole, FormSkills, FormWork;
    FormSectionsUnaliased();
    UnaliasedConcat(b, r); UnaliasedConcat(b + r, k); UnaliasedConcat(b + r + k, w);
  }

  ghost predicate Unaliased(s: Schema)
  {
    forall i :: 0 <= i < |s| ==> s[i].alias.None?
  }

  lemma FormSectionsUnaliased()
    ensures Unaliased(FormBasics) && Unaliased(FormRole) && Unaliased(FormSkills) && Unaliased(FormWork)
  {
  }

  lemma UnaliasedConcat(a: Schema, b: Schema)
    requires Unaliased(a) && Unaliased(b)
    ensures Unaliased(a + b)
  {
    forall i | 0 <= i < |a + b| ensures (a + b)[i].alias.None? {
      if i >= |a| {
        assert (a + b)[i] == b[i - |a|];
      }
    }
  }

  lemma FormFirstColumns()
    ensures Names(FormBasics) == FormBasicsNames && Names(FormRole) == FormRoleNames
  {
  }

  lemma FormLastColumns()
    ensures Names(FormSkills) == FormSkillsNames && Names(FormWork) == FormWorkNames
  {
  }

  lemma FormSectionsDistinct()
    ensures Distinct(FormBasicsNames) && Distinct(FormRoleNames) && Distinct(FormSkillsNames) && Distinct(FormWorkNames)
  {
  }

  lemma FormBasicsDisjointLater()
    ensures Disjoint(FormBasicsNames, FormRoleNames) && Disjoint(FormBasicsNames, FormSkillsNames)
    ensures Disjoint(FormBasicsNames, FormWorkNames)
  {
  }

  lemma FormRoleDisjointLater()
    ensures Disjoint(FormRoleNames, FormSkillsNames) && Disjoint(FormRoleNames, FormWorkNames)
  {
  }

  lemma FormSkillsDisjointWork()
    ensures Disjoint(FormSkillsNames, FormWorkNames)
  {
  }

  /** The form's field names are distinct (and it declares no alias). */
  lemma FormWellFormed()
    ensures WellFormed(FormSchema)
  {
    FormColumns();
    FormSectionsDistinct(); FormBasicsDisjointLater(); FormRoleDisjointLater(); FormSkillsDisjointWork();
    DistinctConcat(FormBasicsNames, FormRoleNames);
    DisjointConcat(FormBasicsNames, FormRoleNames, FormSkillsNames);
    DistinctConcat(FormBasicsNames + FormRoleNames, FormSkillsNames);
    DisjointConcat(FormBasicsNames, FormRoleNames, FormWorkNames);
    DisjointConcat(FormBasicsNames + FormRoleNames, FormSkillsNames, FormWorkNames);
    DistinctConcat(FormBasicsNames + FormRoleNames + FormSkillsNames, FormWorkNames);
  }

  // ----- Required fields -----

  /** A field of `s` is required exactly when its name is one of `names`. */
  predicate RequiredAre(s: Schema, names: seq<string>)
  {
    forall i :: 0 <= i < |s| ==> (!s[i].optional <==> s[i].name in names)
  }

  lemma RequiredAreConcat(a: Schema, b: Schema, names: seq<string>)
    requires RequiredAre(a, names) && RequiredAre(b, names)
    ensures RequiredAre(a + b, names)
  {
  }

  /** The extraction schema requires the title, description and industry, and nothing else. */
  lemma ExtractionRequired()
    ensures Required(ExtractionSchema) == ["job_title", "job_description", "industry_name"]
    ensures RequiredAre(ExtractionSchema, ["job_title", "job_description", "industry_name"])
  {
  }

  /** The six required fields of the enhanced schema. */
  const EnhancedRequiredNames: seq<string> :=
    ["job_title", "industry_name", "role_summary", "responsibilities", "performance_indicators", "required_skills"]

  lemma OverviewRequired()
    ensures RequiredAre(EnhancedOverview, EnhancedRequiredNames)
  {
  }

  lemma RequirementsRequired()
    ensures RequiredAre(EnhancedRequirements, EnhancedRequiredNames)
  {
  }

  lemma EnhancedTermsRequired()
    ensures RequiredAre(EnhancedTerms, EnhancedRequiredNames)
  {
  }

  lemma EnhancedCareerRequired()
    ensures RequiredAre(EnhancedCareer, EnhancedRequiredNames)
  {
  }

  /** The enhanced schema requires exactly six fields; every other field is optional. */
  lemma EnhancedRequired()
    ensures RequiredAre(EnhancedSchema, EnhancedRequiredNames)
  {
    OverviewRequired();
    RequirementsRequired();
    EnhancedTermsRequired();
    EnhancedCareerRequired();
    RequiredAreConcat(EnhancedOverview, EnhancedRequirements, EnhancedRequiredNames);
    RequiredAreConcat(EnhancedOverview + EnhancedRequirements, EnhancedTerms, EnhancedRequiredNames);
    RequiredAreConcat(EnhancedOverview + EnhancedRequirements + EnhancedTerms, EnhancedCareer, EnhancedRequiredNames);
  }

  /** The form requires only its title; every other field is optional. */
  lemma FormRequired()
    ensures RequiredAre(FormSchema, ["title"])
  {
    assert RequiredAre(FormBasics, ["title"]) && RequiredAre(FormRole, ["title"]);
    assert RequiredAre(FormSkills, ["title"]) && RequiredAre(FormWork, ["title"]);
    RequiredAreConcat(FormBasics, FormRole, ["title"]);
    RequiredAreConcat(FormBasics + FormRole, FormSkills, ["title"]);
    RequiredAreConcat(FormBasics + FormRole + FormSkills, FormWork, ["title"]);
  }
}
