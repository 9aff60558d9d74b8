# Job-description pipeline core, modelled in Dafny

This project models the deterministic core of a job-description service. An uploaded document is turned into
text. A language model's JSON reply is normalised and validated against declared record schemas. The enhanced
record is mapped onto the flat job form that the service submits.

The model has four parts, one per source file:

- **Document-text extraction** (`utils/file_parser.py`, module `FileParser`).
  - The lower-cased file name picks a reader: PDF, DOCX, the fixed `.doc` message, an image description, or
    the unsupported-format error.
  - PDF and DOCX text is built by the same loops as the source: page texts, then annotation URIs; paragraph
    lines, then `href="…"` captures from the archive's hyperlink parts, then header and footer lines.
  - Each loop is a `method` proved against a specification function.
- **Response normaliser** (`services/gpt_service.py`, modules `KeyCase` and `GptService`).
  - `camel_to_snake` runs over nested dicts and lists of dicts.
  - The alias table copies without overwriting.
  - Four list fields are joined with newlines, and `skills_priority` is split at commas.
  - `required_skills` is synthesised from the hard and soft skills.
  - Validation runs once; if it fails, defaults are backfilled and validation runs exactly once more.
  - Every failure is wrapped as `GptExtractionFailed`.
- **Schema declarations** (`models/schemas.py`, module `Schemas`).
  - The extraction, enhanced and form schemas are constant tables of name, kind, optionality and alias.
  - Validation follows pydantic's *populate by name*: the alias is tried first, then the field name.
  - `.dict()` lists the fields in declaration order, with `None` for an absent optional field.
- **Enhancement service** (`services/jd_enhancement_service.py`, module `JdEnhancementService`).
  - The plain-dict input is defaulted.
  - The model's reply is enhanced, mapped onto the forty form keys with the two fix-ups (the experience note and
    the title fallback), and validated.
  - The `{"status": "success", "data": …}` result is wrapped.

Supporting modules:

- `Wrappers` holds `Option` and `Result`.
- `Errors` holds the raised exceptions as values.
- `PyJson` models JSON values and Python dicts. A dict is an insertion-ordered list of entries, so "the later key
  wins" and the order of `.dict()` are both visible.
- `PyText` models the `str` operations the code uses: `lower`, `strip`, `split`, `join`, `endswith`, `in`, and
  `str(int)`.

Where the written description of the service and its code differ, the model follows the code:

- `PrepareInputAsWritten`, `JobFormAsWritten`, `MapToJobForm`, `EnhanceJobDescription` and
  `ProcessJobDescription` are the code as written, including the two failures on a stored `None` listed under
  "## Findings". The repaired pipeline is named separately (`PrepareInput`, `JobForm`, `EnhanceCorrected`,
  `ProcessCorrected`), and lemmas prove where the two agree.

- A reply without `min_work_experience` leaves the field `None` in the validated record. The description says
  `0`; `0` comes only from backfilling a required `int` field, and this field is optional.
- A validation failure surfaces as `GptExtractionFailed` wrapping the validation error. It is not a separate
  kind of error.
- Backfilling runs after any failed first validation, whether the failure was a missing field or a wrong kind.
- In the enhanced schema the alias `industry` populates `industry_name` whenever it is present. This holds even
  though the alias step has already copied it.
- `process_job_description` builds `EnhancementResult`, which validates the enhanced record again. The model
  performs that validation and proves it returns the record unchanged.

## Model

| member | source | states |
|---|---|---|
| PyText.LowerAll | services/gpt_service.py:42 | each character is lowered; the length is kept |
| PyText.Strip | services/gpt_service.py:151 | the result is a slice of the input with only whitespace cut from both ends, and it neither starts nor ends with whitespace |
| PyText.StripIdempotent | services/gpt_service.py:151 | stripping twice is stripping once |
| PyText.StripPadded | utils/file_parser.py:170 | whitespace padding around a text with non-blank ends is exactly what `strip` removes |
| PyText.Split | services/gpt_service.py:151 | the pieces hold no separator, there is at least one, and joining them with the separator gives back the input |
| PyText.SplitJoin | services/gpt_service.py:146 | splitting a newline-joined list of separator-free strings gives the list back |
| PyText.SplitAppend | utils/file_parser.py:68 | splitting `a + sep + b` is splitting `a` followed by splitting `b` |
| PyText.SplitPrefix | services/gpt_service.py:151 | a separator-free first piece is the first element of the split |
| PyText.NatToStrRoundTrip | services/jd_enhancement_service.py:199 | the decimal text of a number reads back as that number |
| PyText.IntToStr | services/jd_enhancement_service.py:199 | `str(n)` is non-empty and starts with `-` exactly for negative numbers |
| PyJson.Keys | services/gpt_service.py:113 | the keys of a dict, in insertion order |
| PyJson.Lookup | services/gpt_service.py:134 | a value is found exactly when the key is present |
| PyJson.LookupAt | services/gpt_service.py:134 | in a dict with distinct keys, looking up the key of the i-th entry gives the i-th value |
| PyJson.Store | services/gpt_service.py:135 | `d[k] = v`: `k` maps to `v`, every other key is unchanged, an existing key keeps its place and a new key goes last |
| PyJson.StoreAbsent | services/gpt_service.py:135 | storing an absent key appends one entry |
| PyJson.StoreKeepsDict | services/gpt_service.py:135 | storing keeps the keys distinct |
| PyJson.GetOr | services/jd_enhancement_service.py:140 | `.get(k, default)` returns the stored value whenever the key is present, even `None`, and the default only when it is absent |
| Schemas.Source | models/schemas.py:97-98 | a field finds a value exactly when its alias or its own name is present |
| Schemas.Invalid | services/gpt_service.py:174 | the listed fields are schema fields, and the list is empty exactly when every field is valid |
| Schemas.Instance | services/gpt_service.py:175 | `.dict()` lists the schema's fields in declaration order, each with its source value or `None` |
| Schemas.Validate | services/gpt_service.py:174-175 | validation succeeds exactly when every field is valid, and then yields a conforming record with the schema's keys; otherwise it names at least one field |
| Schemas.ValidateLocal | services/gpt_service.py:174 | validation depends only on what each field reads, not on other keys |
| Schemas.ValidateIdempotent | services/jd_enhancement_service.py:231-233 | a conforming record validates to itself |
| Schemas.ConformsLookup | models/schemas.py:13-95 | a conforming record holds each field under its name with a value of the field's kind |
| Schemas.RequiredMembers | models/schemas.py:5-10 | the required names are exactly the names of non-optional fields |
| Schemas.EmptyInputMissesRequired | services/gpt_service.py:174 | an empty dict fails validation and names exactly the required fields, unless there are none |
| Schemas.ExtractionRequired | models/schemas.py:5-10 | the extraction schema requires `job_title`, `job_description` and `industry_name` and nothing else |
| Schemas.OverviewColumns | models/schemas.py:15-36 | names and aliases of the basic, industry, posting and role fields |
| Schemas.RequirementsColumns | models/schemas.py:39-59 | names and aliases of the requirements and skills fields |
| Schemas.TermsColumns | models/schemas.py:62-85 | names and aliases of the experience, compensation and work fields |
| Schemas.CareerColumns | models/schemas.py:88-95 | names and aliases of the career fields |
| Schemas.EnhancedColumns | models/schemas.py:13-95 | the enhanced schema's names and aliases, section by section |
| Schemas.EnhancedNamesDistinct | models/schemas.py:13-95 | no two enhanced fields share a name |
| Schemas.EnhancedAliasesAvoidNames | models/schemas.py:13-95 | no alias is also a field name |
| Schemas.EnhancedWellFormed | models/schemas.py:13-98 | the enhanced schema has distinct names, and no alias is a field name |
| Schemas.EnhancedRequired | models/schemas.py:13-95 | exactly `job_title`, `industry_name`, `role_summary`, `responsibilities`, `performance_indicators` and `required_skills` are required |
| Schemas.FormColumns | models/schemas.py:101-159 | the form's names, section by section; no form field has an alias |
| Schemas.FormFirstColumns | models/schemas.py:103-129 | names of the basic, posting, role and requirement form fields |
| Schemas.FormLastColumns | models/schemas.py:132-159 | names of the skills, compensation, work and career form fields |
| Schemas.FormWellFormed | models/schemas.py:101-159 | the form schema has distinct names |
| Schemas.FormRequired | models/schemas.py:101-159 | the form requires only `title` |
| KeyCase.SnakeKey | services/gpt_service.py:42 | a repaired key has no upper-case letter |
| KeyCase.SnakeKeyFixedIff | services/gpt_service.py:42 | a key is unchanged by repair exactly when it has no upper-case letter |
| KeyCase.SnakeKeyIdempotent | services/gpt_service.py:42 | repairing a repaired key changes nothing |
| KeyCase.SnakeKeyExample | services/gpt_service.py:42 | `jobTitle` becomes `job_title` |
| KeyCase.UnderscoreExample | services/gpt_service.py:42 | example: the underscore pass turns `obTitle`, the part of `jobTitle` after index 0, into `ob_Title`, before lowering |
| KeyCase.CamelToSnake | services/gpt_service.py:39-53 | the loop builds the dict defined by the recursive repair of keys and nested values |
| KeyCase.SnakeValueOf | services/gpt_service.py:44-49 | a nested dict, or a list whose first item is a dict, is replaced by its repaired form; any other value is stored as it is |
| KeyCase.CamelToSnakeItems | services/gpt_service.py:48-49 | in a list whose first item is a dict, dict items are repaired and other items kept |
| KeyCase.SnakeItems | services/gpt_service.py:48-49 | the list keeps its length |
| KeyCase.SnakeValueCanonical | services/gpt_service.py:45-49 | a repaired value has only lower-case, distinct keys at every converted level |
| KeyCase.CanonicalValueFixed | services/gpt_service.py:45-49 | a value already in canonical form is unchanged by repair |
| KeyCase.CanonicalFieldsFixed | services/gpt_service.py:39-53 | a canonical dict is unchanged by repair |
| KeyCase.SnakeFieldsIdempotent | services/gpt_service.py:39-53 | `camel_to_snake` applied twice equals applying it once |
| KeyCase.SnakeFieldsKeys | services/gpt_service.py:39-53 | the output is a dict whose keys have no upper-case letter |
| KeyCase.LastWith | services/gpt_service.py:51 | the chosen input entry is the last one whose key repairs to the requested key; none is chosen exactly when no entry's key repairs to it |
| KeyCase.SnakeFieldsLookup | services/gpt_service.py:51 | a repaired key holds the repaired value of the last input entry whose key repairs to it |
| GptService.MapAlias | services/gpt_service.py:133-135 | one table row never changes a key that is already present |
| GptService.ApplyFieldMappings | services/gpt_service.py:119-135 | the loop applies the alias table in its order |
| GptService.FieldMappingsSeparated | services/gpt_service.py:119-130 | no alias in the table is also a canonical key |
| GptService.MapAliasesLookup | services/gpt_service.py:133-135 | after the table, a present key keeps its value, and an absent key gets the value of the first table alias present for it |
| GptService.FieldMappingsNeverOverwrite | services/gpt_service.py:134 | no present key is ever overwritten |
| GptService.KpisBeforeKeyMetrics | services/gpt_service.py:125-126 | `kpis` wins over `key_metrics` for `performance_indicators` |
| GptService.MapAliasesKeepsKeys | services/gpt_service.py:133-135 | alias keys and all other keys are kept, in place; copies are appended |
| GptService.JoinListFields | services/gpt_service.py:138-146 | the loop joins the four fields as the reference definition does |
| GptService.JoinFieldsEffect | services/gpt_service.py:143-146 | it fails exactly when one of the four fields is a list holding a non-string; otherwise only those fields change, each list becoming its newline join, and the keys stay |
| GptService.JoinedFieldSplitsBack | services/gpt_service.py:146 | a joined list of newline-free items splits back into the items |
| GptService.SplitSkills | services/gpt_service.py:151 | at least one piece; the pieces hold no comma and are stripped |
| GptService.CoerceSkillsPriority | services/gpt_service.py:149-151 | a string `skills_priority` becomes its stripped comma pieces; every other value and key is unchanged |
| GptService.SplitSkillsJoin | services/gpt_service.py:151 | splitting a `", "`-join of stripped comma-free items gives the items back |
| GptService.SynthesizeRequiredSkills | services/gpt_service.py:154-167 | it changes nothing unless `required_skills` is absent and `hard_skills` present; then it adds `required_skills` as a list, last, and nothing else |
| GptService.SynthesisConcatenates | services/gpt_service.py:159-164 | with list hard skills, the result is hard ++ soft when soft is a list, otherwise hard |
| GptService.SynthesisWithoutHardList | services/gpt_service.py:163-167 | with a non-list `hard_skills`, `required_skills` is `soft_skills` when that is a list, otherwise `[]` |
| GptService.BackfillDefault | services/gpt_service.py:186-193 | a default is chosen exactly for the fields the annotation test treats as required, and it has the field's kind |
| GptService.FillMissingFields | services/gpt_service.py:183-193 | the loop backfills as the reference definition does |
| GptService.BackfillLookup | services/gpt_service.py:183-193 | present keys keep their values; an absent schema field gets its default |
| GptService.BackfillSource | services/gpt_service.py:183-193 | after backfill a field reads its old source if it had one, otherwise its default |
| GptService.ValidateWithRetry | services/gpt_service.py:173-197 | success yields a conforming record; failure is a validation error |
| GptService.RetrySucceedsIff | services/gpt_service.py:173-197 | the retry succeeds exactly when every field that is present or aliased has a value of its kind |
| GptService.Filled | services/gpt_service.py:188-193 | the default of each field has the field's kind |
| GptService.RetryValues | services/gpt_service.py:183-197 | after a first failure and a successful retry, each field holds its original value or its default |
| GptService.EmptyResponseDefaults | services/gpt_service.py:183-197 | an empty reply validates after backfill, with every field at its default |
| GptService.Extract | services/gpt_service.py:113-201 | success yields a record that conforms to the schema with its keys in order; every failure is `GptExtractionFailed` |
| GptService.ExtractWithPrompts | services/gpt_service.py:113-201 | the method computes `Extract` |
| GptService.ExtractSucceedsIff | services/gpt_service.py:173-201 | extraction succeeds exactly when every field of the normalised reply that is present has its kind |
| GptService.ExtractEmptyObject | services/gpt_service.py:183-197 | an empty JSON object extracts to the defaults |
| GptService.BackfillMatchesRequired | services/gpt_service.py:186 | for the extraction and enhanced schemas, the annotation test picks exactly the required fields |
| GptService.AliasWins | models/schemas.py:97-98 | when an alias key is present, the validated field holds the alias's value |
| GptService.EnhancedIndustryFromAlias | models/schemas.py:22 | `industry` populates `industry_name` whenever present |
| JdEnhancementService.InputArgumentsAsWritten | services/jd_enhancement_service.py:42-48 | each of the five arguments is `.get(name, default)` |
| JdEnhancementService.GetOrIfNone | services/jd_enhancement_service.py:43-47 | the default replaces an absent key and a present `None` |
| JdEnhancementService.InputArguments | services/jd_enhancement_service.py:42-48 | each argument is the stored value unless it is absent or `None` |
| JdEnhancementService.PrepareInputAsWritten | services/jd_enhancement_service.py:41-48 | the `.get`-defaulted dict is validated by the input model: success conforms to it, failure is a validation error |
| JdEnhancementService.PrepareInput | services/jd_enhancement_service.py:41-48 | the corrected defaulting, which also replaces a stored `None`: success conforms to the input model, failure is a validation error |
| JdEnhancementService.PrepareInputAgrees | services/jd_enhancement_service.py:41-48 | without a present `None`, the corrected defaulting equals the code as written |
| JdEnhancementService.InputColumns | services/jd_enhancement_service.py:10-16 | the input model's five fields are the extraction schema's names, without aliases |
| JdEnhancementService.InputSchemaWellFormed | services/jd_enhancement_service.py:10-16 | the input model has distinct field names |
| JdEnhancementService.DefaultsAccepted | services/jd_enhancement_service.py:43-47 | `""`, `""`, `""`, `[]` and `0` have their fields' kinds |
| JdEnhancementService.ArgumentsAccepted | services/jd_enhancement_service.py:42 | conforming arguments validate to themselves |
| JdEnhancementService.EmptyInputDefaults | services/jd_enhancement_service.py:41-48 | an empty dict becomes the five defaults |
| JdEnhancementService.AsWrittenRejectsExtractedNone | services/jd_enhancement_service.py:46-47 | a valid extraction record with `None` optionals fails the input model as written |
| JdEnhancementService.ArgumentKind | services/jd_enhancement_service.py:43-47 | with the corrected defaulting, each argument built from an extraction record has its field's kind |
| JdEnhancementService.PrepareInputAcceptsExtraction | services/jd_enhancement_service.py:41-48 | every record valid under the extraction schema is accepted by the input model |
| JdEnhancementService.PyJoin | services/jd_enhancement_service.py:152 | `"\n".join(v)` fails exactly on values that are not iterable or yield non-strings; a list of strings gives their join |
| JdEnhancementService.RuleValue | services/jd_enhancement_service.py:139-194 | a copy is `.get(k, "")`; a join of an absent key is `""`; a join of a list is its newline join; a conditional join of a non-list passes the value through |
| JdEnhancementService.BuildEntries | services/jd_enhancement_service.py:139-194 | the literal is built exactly when every value is, with the rules' keys in order and each value its rule's value |
| JdEnhancementService.FormRuleTargets | services/jd_enhancement_service.py:139-194 | the literal's forty keys are the form's field names other than `company_id` |
| JdEnhancementService.FixedFormKeys | services/jd_enhancement_service.py:139-194 | whatever the input, a built literal has those forty distinct keys |
| JdEnhancementService.GreaterThanZero | services/jd_enhancement_service.py:198 | `x > 0` raises unless `x` is a number, and compares when it is |
| JdEnhancementService.ExperienceAboveZero | services/jd_enhancement_service.py:198 | the corrected test treats `None` as not above zero and is otherwise `x > 0` |
| JdEnhancementService.ApplyExperience | services/jd_enhancement_service.py:197-199 | only `required_qualifications` can change, and only to the experience note when the test holds and it is falsy; the keys stay |
| JdEnhancementService.TitleFallbackNoOp | services/jd_enhancement_service.py:202-203 | the title fallback never changes a form whose title came from `job_title` |
| JdEnhancementService.FormKeysPresent | services/jd_enhancement_service.py:198-203 | the literal has the keys the fix-ups index |
| JdEnhancementService.RuleValueFits | services/jd_enhancement_service.py:139-194 | a rule applied to a value of its source field's kind gives a value of its target field's kind |
| JdEnhancementService.BuildFits | services/jd_enhancement_service.py:139-194 | rules that fit, applied to well-kinded sources, build a literal whose every value has its target's kind |
| JdEnhancementService.FormRulesFit | services/jd_enhancement_service.py:139-194 | every one of the forty rules fits its enhanced source and form target |
| JdEnhancementService.SourcesDeclared | services/jd_enhancement_service.py:139-194 | every source key the literal reads is an enhanced-schema field |
| JdEnhancementService.LiteralFits | services/jd_enhancement_service.py:139-194 | a conforming enhanced record builds a literal the form accepts field by field |
| JdEnhancementService.CompanyIdAbsent | services/jd_enhancement_service.py:139-194 | the literal never sets `company_id`, which is optional |
| JdEnhancementService.ValidatesTo | services/jd_enhancement_service.py:206 | a dict holding every field after an absent optional first one validates to `None` followed by those entries |
| JdEnhancementService.FixedLiteralValidates | services/jd_enhancement_service.py:206 | the literal after the experience fix-up validates to itself with `company_id` set to `None` |
| JdEnhancementService.FinishFormFields | services/jd_enhancement_service.py:196-207 | the fix-ups and validation yield `company_id` `None` followed by the literal with the experience fix-up |
| JdEnhancementService.LiteralTitle | services/jd_enhancement_service.py:140 | the literal's `title` is `.get("job_title", "")` |
| JdEnhancementService.ExperienceDefined | models/schemas.py:62-63 | a conforming record's experience is an int or `None`, so the corrected test never raises |
| JdEnhancementService.JobFormFields | services/jd_enhancement_service.py:127-207 | every conforming enhanced record maps to a valid form: `company_id` `None`, then the literal with the experience fix-up |
| JdEnhancementService.JobFormLookup | services/jd_enhancement_service.py:139-194 | every form key other than `required_qualifications` holds its rule's value: renames such as `title` ← `job_title`, and joins |
| JdEnhancementService.RequiredQualificationsNote | services/jd_enhancement_service.py:158-199 | `required_qualifications` becomes `Minimum N years of relevant experience` exactly when N > 0 and the copied value is falsy; otherwise it is the copied value |
| JdEnhancementService.DayToDayTasksJoined | services/jd_enhancement_service.py:152 | `day_to_day_tasks` is the newline join of the responsibilities |
| JdEnhancementService.DayToDayTasksExample | services/jd_enhancement_service.py:152 | `["Design APIs","Review code"]` joins to `Design APIs\nReview code` |
| JdEnhancementService.JobFormAsWritten | services/jd_enhancement_service.py:127-207 | success conforms to the form schema; a record whose literal builds but whose experience is `None` raises the comparison `TypeError` |
| JdEnhancementService.AsWrittenAgrees | services/jd_enhancement_service.py:197-198 | without a `None` experience, the corrected mapper equals the code as written |
| JdEnhancementService.AsWrittenRaisesWithoutExperience | services/jd_enhancement_service.py:197-198 | a conforming record with experience `None` makes the code as written raise, while the corrected mapper succeeds |
| JdEnhancementService.MapToJobForm | services/jd_enhancement_service.py:127-211 | the method builds the literal, compares the experience with 0 as written, applies both fix-ups in place and validates, computing `JobFormAsWritten` |
| JdEnhancementService.EnhanceJobDescription | services/jd_enhancement_service.py:29-125 | with the `.get` defaulting as written, an input-model failure is re-raised unchanged; otherwise the result is the extraction against the enhanced schema, which conforms when it succeeds |
| JdEnhancementService.EnhanceCorrected | services/jd_enhancement_service.py:29-125 | the same with the corrected defaulting |
| JdEnhancementService.ProcessJobDescription | services/jd_enhancement_service.py:213-242 | as written: an enhancement failure is re-raised unchanged, and success needs both enhancement and the as-written mapping to succeed |
| JdEnhancementService.ProcessAsWrittenSucceeds | services/jd_enhancement_service.py:223-239 | once enhancement succeeds with a non-`None` experience, the result is `{"status": "success", "data": {enhanced_jd, job_form_data}}` with the enhanced record unchanged |
| JdEnhancementService.ProcessAsWrittenRaisesWithoutExperience | services/jd_enhancement_service.py:197-198 | an enhanced record with experience `None` makes the process fail with the comparison `TypeError` |
| JdEnhancementService.ProcessAsWrittenFailsIff | services/jd_enhancement_service.py:213-242 | the process as written fails exactly when the input model rejects the defaulted input, extraction fails, or the extracted experience is `None` |
| JdEnhancementService.ProcessAsWrittenRejectsExtractedNone | services/jd_enhancement_service.py:41-48 | an extraction record with `None` optionals makes the process fail with a validation error before any model call |
| JdEnhancementService.ProcessCorrected | services/jd_enhancement_service.py:213-242 | the corrected pipeline: an enhancement failure is re-raised, and success needs enhancement and the corrected mapping to succeed |
| JdEnhancementService.ProcessSucceeds | services/jd_enhancement_service.py:223-239 | corrected pipeline: once enhancement succeeds, the result is `{"status": "success", "data": {enhanced_jd, job_form_data}}` with the enhanced record unchanged |
| JdEnhancementService.ProcessFailsOnlyInExtraction | services/jd_enhancement_service.py:223-242 | corrected pipeline: for a valid extraction record the process fails exactly when extraction fails, and the error is the wrapped extraction failure |
| JdEnhancementService.ProcessAgrees | services/jd_enhancement_service.py:213-242 | without a stored `None` in the input and with a non-`None` extracted experience, the code as written and the corrected pipeline give the same result |
| FileParser.ParsePdf | utils/file_parser.py:49-68 | the loops yield the stripped page texts, a newline, then the URIs one per line |
| FileParser.PageLinksMember | utils/file_parser.py:58-64 | a URI is listed exactly when some page has a dictionary annotation carrying it; indirect references are skipped |
| FileParser.AnnotationLinksMember | utils/file_parser.py:60-64 | on one page, a URI is listed exactly when a dictionary annotation carries it |
| FileParser.PdfLinksReadBack | utils/file_parser.py:67-68 | newline-free URIs are exactly the last lines of the PDF text |
| FileParser.ExtractHeaderFooter | utils/file_parser.py:122-140 | the nested loops yield the stripped header-then-footer lines of every section |
| FileParser.SectionLinesFlatten | utils/file_parser.py:130-138 | that text is one line per paragraph, sections in order, header before footer |
| FileParser.LinesJoin | utils/file_parser.py:86-87 | one line per paragraph is the newline join plus a final newline |
| FileParser.LinesConcat | utils/file_parser.py:86-87 | the lines of two lists are the lines of each, in order |
| FileParser.FirstQuote | utils/file_parser.py:114 | the first double quote and no quote before it |
| FileParser.Hrefs | utils/file_parser.py:114 | every capture is non-empty and quote-free |
| FileParser.HrefsTag | utils/file_parser.py:114 | `href="u"` followed by more content captures `u`, then scans the rest |
| FileParser.HrefsNone | utils/file_parser.py:114 | content without `href="` yields no link |
| FileParser.ExtractHyperlinks | utils/file_parser.py:107-116 | the loop joins, with newlines, the captures of the archive members whose name contains `hyperlink`, in archive order |
| FileParser.ParseDocx | utils/file_parser.py:74-99 | a reader failure is re-raised; otherwise the text is stripped paragraph lines, newline, links, newline, header and footer text |
| FileParser.DocxLinksReadBack | utils/file_parser.py:95 | newline-free links occupy their own lines between the body and the header and footer lines |
| FileParser.ImageText | utils/file_parser.py:142-170 | succeeds exactly when the image reader does, and re-raises the reader's error unchanged |
| FileParser.ImageTextSummary | utils/file_parser.py:158-170 | a successful read gives the one-paragraph description |
| FileParser.ImageTextTrimmed | utils/file_parser.py:158-170 | the image text is the description with the template's indentation stripped, whatever the image |
| FileParser.ParseDocument | utils/file_parser.py:15-38 | every error is the unsupported-format error on an unsupported name or a reader's own error; `.doc` gives the fixed message; an image gives its description |
| FileParser.ParsePdfOrDocx | utils/file_parser.py:15-38 | the if-chain dispatches on the lower-cased name and re-raises a reader's error unchanged |
| FileParser.KindBySuffix | utils/file_parser.py:23-33 | each reader is chosen exactly when its own suffix is present, so the order of the tests does not matter |
| FileParser.KindIgnoresCase | utils/file_parser.py:23 | the choice is case-insensitive |
| FileParser.DispatchIgnoresBuffer | utils/file_parser.py:27-35 | `.doc` gets the fixed message and an unsupported name the format error, whatever the buffer holds |
| FileParser.UnsupportedExample | utils/file_parser.py:34-35 | `resume.xyz` is unsupported and fails with the format error |

## Left out

- The language-model call, its prompts and `json.loads` are not modelled.
  - The parsed reply, or the error of the call, is an input of `GptService.Extract`.
  - The current date in the prompt is not modelled.
- The PDF, DOCX, zip and image libraries are not modelled.
  - What each would read from the buffer is an input (`FileParser.Buffer`).
  - A library failure is an error value that is re-raised unchanged.
  - UTF-8 decoding of archive members is left to that input.
- `services/jd_extraction_service.py` is not part of this model. It parses the document before it calls the
  model, so an unsupported file name fails before any model call.
- The HTTP routes, the GraphQL client, the identity-provider setup, settings, logging and the browser scripts
  are not modelled. They are plumbing around this core.
- Floating-point numbers are not modelled. JSON numbers are integers.
- The `isinstance(jd_data, JDEnhancementInput)` branch is not modelled. Callers pass plain dicts.
- PyText.LowerAll: lowers ASCII capitals only. Python's `str.lower` also lowers non-ASCII capitals.
- Schemas.Validate: checks presence and kind only. Pydantic's coercions (for example a numeric string into an
  `int`) and its error texts are not modelled.
- GptService.BackfillDefault: follows which type names each field's annotation text mentions. The annotation
  texts are fixed per kind, not printed from Python's `typing`.
- FileParser.ParsePdf: assumes every URI is a string. A non-string URI would make the join raise.
- FileParser.Hrefs: models the one regular expression `href="([^"]+)"`, not a regular-expression engine.

## Findings

| source | as written | input that shows it | evidently intended | confidence | as-written member | corrected member |
|---|---|---|---|---|---|---|
| services/jd_enhancement_service.py:197-198 | `min_experience > 0` compares the record's `min_work_experience` with 0. The enhanced schema makes that field optional, and the validated record carries it as `None` when the reply has none, so `None > 0` raises `TypeError` and the mapping fails | an enhanced record that conforms to the schema with `min_work_experience` set to `None` | a missing experience adds no note | high; not executed | JdEnhancementService.AsWrittenRaisesWithoutExperience | JdEnhancementService.JobFormFields |
| services/jd_enhancement_service.py:46-47 | `.get(k, default)` returns a stored `None`. An extraction record carries `required_skills` and `min_work_experience` as `None` when the document gives none, and the input model (`List[str] = []`, `int = 0`) rejects an explicit `None` | `{job_title: "SWE", job_description: "Builds services", industry_name: "Tech", required_skills: None, min_work_experience: None}` | a present `None` falls back to the default too | medium (depends on the caller passing the extraction record as is); not executed | JdEnhancementService.AsWrittenRejectsExtractedNone | JdEnhancementService.PrepareInputAcceptsExtraction |
