/**
 * The post-processing half of `GPTService.extract_with_prompts` (services/gpt_service.py):
 * the parsed model response has its keys put in snake case, known alternative keys copied to
 * the expected ones, four list fields joined into text, `skills_priority` split into a list and
 * `required_skills` synthesised from the skill sections; the result is validated against the
 * requested schema, and when that fails the missing required fields are backfilled with
 * defaults and validation is tried once more. Every failure surfaces as one error kind.
 * The model request itself is an input: a parsed value, or the error that stopped it.
 */
module GptService {
  import opened Wrappers
  import opened PyText
  import opened PyJson
  import opened Errors
  import opened Schemas
  import KeyCase

  // ----- Alternative keys (gpt_service.py:119-135) -----

  /** A row of the alias table: when `alt` is present and `canonical` is not, copy it over. */
  datatype Alias = Alias(alt: string, canonical: string)

  const FieldMappings: seq<Alias> := [
    Alias("industry", "industry_name"),
    Alias("qualifications", "required_qualifications"),
    Alias("key_stakeholders", "stakeholder_interactions"),
    Alias("decision_making_authority", "decision_making"),
    Alias("certifications", "mandatory_certifications"),
    Alias("kpis", "performance_indicators"),
    Alias("key_metrics", "performance_indicators"),
    Alias("work_environment", "work_model"),
    Alias("career_development", "growth_opportunities"),
    Alias("compensation_framework", "base_salary")
  ]

  /** One row applied to the dict. */
  function MapAlias(d: seq<Entry>, a: Alias): (r: seq<Entry>)
    ensures forall k :: k in Keys(d) ==> Lookup(r, k) == Lookup(d, k)
  {
    if a.alt in Keys(d) && a.canonical !in Keys(d) then Store(d, a.canonical, Lookup(d, a.alt).value) else d
  }

  /** The rows of `table` applied in order. */
  function MapAliases(d: seq<Entry>, table: seq<Alias>): seq<Entry>
    decreases |table|
  {
    if table == [] then d else MapAlias(MapAliases(d, table[..|table| - 1]), table[|table| - 1])
  }

  method ApplyFieldMappings(response: seq<Entry>) returns (normalized: seq<Entry>)
    ensures normalized == MapAliases(response, FieldMappings)
  {
    var table := FieldMappings;
    normalized := response;
    for i := 0 to |table|
      invariant normalized == MapAliases(response, table[..i])
    {
      var a := table[i];
      MapAliasesStep(response, table, i);
      if a.alt in Keys(normalized) && a.canonical !in Keys(normalized) {
        normalized := Store(normalized, a.canonical, Lookup(normalized, a.alt).value);
      }
    }
    assert table[..|table|] == table;
  }

  lemma MapAliasesStep(d: seq<Entry>, table: seq<Alias>, i: nat)
    requires i < |table|
    ensures MapAliases(d, table[..i + 1]) == MapAlias(MapAliases(d, table[..i]), table[i])
  {
    assert table[..i + 1][..i] == table[..i];
  }

  /** Reference reading of the table: the value of the first row for `k` whose alternative key is in `d`. */
  function FirstAliasValue(d: seq<Entry>, table: seq<Alias>, k: string): Option<Json>
    decreases |table|
  {
    if table == [] then None
    else if table[0].canonical == k && table[0].alt in Keys(d) then Lookup(d, table[0].alt)
    else FirstAliasValue(d, table[1..], k)
  }

  /** No row's alternative key is the expected key of any row. */
  predicate Separated(table: seq<Alias>)
  {
    forall i, j :: 0 <= i < |table| && 0 <= j < |table| ==> table[i].alt != table[j].canonical
  }

  lemma FieldMappingsSeparated()
    ensures Separated(FieldMappings)
  {
  }

  lemma {:induction false} FirstAliasConcat(d: seq<Entry>, t: seq<Alias>, u: seq<Alias>, k: string)
    ensures FirstAliasValue(d, t + u, k)
         == if FirstAliasValue(d, t, k).Some? then FirstAliasValue(d, t, k) else FirstAliasValue(d, u, k)
    decreases |t|
  {
    if t != [] {
      assert (t + u)[0] == t[0];
      assert (t + u)[1..] == t[1..] + u;
      FirstAliasConcat(d, t[1..], u, k);
    } else {
      assert t + u == u;
    }
  }

  /** A row's effect on a key is only ever on its expected key, and only when that key is absent. */
  lemma {:induction false} MapAliasesLookup(d: seq<Entry>, table: seq<Alias>, k: string)
    requires Separated(table)
    ensures Lookup(MapAliases(d, table), k) == if k in Keys(d) then Lookup(d, k) else FirstAliasValue(d, table, k)
    decreases |table|
  {
    if table != [] {
      var init, a := table[..|table| - 1], table[|table| - 1];
      assert init + [a] == table;
      MapAliasesLookup(d, init, k);
      MapAliasesLookup(d, init, a.alt);
      MapAliasesLookup(d, init, a.canonical);
      FirstAliasConcat(d, init, [a], k);
      FirstAliasConcat(d, init, [a], a.alt);
      assert FirstAliasValue(d, init, a.alt) == None by {
        FirstAliasNone(d, init, a.alt);
      }
    }
  }

  /** A key that no row expects gets nothing from the table. */
  lemma {:induction false} FirstAliasNone(d: seq<Entry>, table: seq<Alias>, k: string)
    requires forall i :: 0 <= i < |table| ==> table[i].canonical != k
    ensures FirstAliasValue(d, table, k) == None
    decreases |table|
  {
    if table != [] {
      FirstAliasNone(d, table[1..], k);
    }
  }

  /** The table never overwrites a key the response already had: `industry_name` beats `industry`. */
  lemma FieldMappingsNeverOverwrite(d: seq<Entry>, k: string)
    requires k in Keys(d)
    ensures Lookup(MapAliases(d, FieldMappings), k) == Lookup(d, k)
  {
    FieldMappingsSeparated();
    MapAliasesLookup(d, FieldMappings, k);
  }

  /** `kpis` is listed before `key_metrics`, so it wins when both are present and the expected key is not. */
  lemma KpisBeforeKeyMetrics(d: seq<Entry>)
    requires "kpis" in Keys(d) && "performance_indicators" !in Keys(d)
    ensures Lookup(MapAliases(d, FieldMappings), "performance_indicators") == Lookup(d, "kpis")
  {
    FieldMappingsSeparated();
    MapAliasesLookup(d, FieldMappings, "performance_indicators");
    FirstAliasSplit(d, FieldMappings, 5, "performance_indicators");
    EarlyRowsSkipIndicators(d);
    KpisRow();
  }

  lemma KpisRow()
    ensures |FieldMappings| > 5 && FieldMappings[5..][0] == Alias("kpis", "performance_indicators")
  {
  }

  lemma FirstAliasSplit(d: seq<Entry>, table: seq<Alias>, n: nat, k: string)
    requires n <= |table|
    ensures FirstAliasValue(d, table, k)
         == if FirstAliasValue(d, table[..n], k).Some? then FirstAliasValue(d, table[..n], k) else FirstAliasValue(d, table[n..], k)
  {
    assert table == table[..n] + table[n..];
    FirstAliasConcat(d, table[..n], table[n..], k);
  }

  lemma EarlyRowsSkipIndicators(d: seq<Entry>)
    ensures FirstAliasValue(d, FieldMappings[..5], "performance_indicators") == None
  {
    FirstAliasNone(d, FieldMappings[..5], "performance_indicators");
  }

  /** An alternative key stays in the dict next to the expected key it was copied to. */
  lemma {:induction false} MapAliasesKeepsKeys(d: seq<Entry>, table: seq<Alias>)
    ensures |MapAliases(d, table)| >= |d|
    ensures Keys(MapAliases(d, table))[..|d|] == Keys(d)
    decreases |table|
  {
    if table != [] {
      MapAliasesKeepsKeys(d, table[..|table| - 1]);
    }
  }

  // ----- List fields joined into text (gpt_service.py:138-146) -----

  const ListToStringFields: seq<string> :=
    ["required_qualifications", "preferred_qualifications", "mandatory_certifications", "legal_eligibility"]

  /** `"\n".join(items)` succeeds only on a list of strings. */
  predicate Joinable(v: Option<Json>)
  {
    v.None? || !v.value.JArray? || AllStrings(v.value.items)
  }

  /** Reference reading of one field: a present list of strings becomes its newline-joined text. */
  function Coerced(v: Option<Json>): Option<Json>
  {
    if v.Some? && v.value.JArray? && AllStrings(v.value.items) then Some(JString(Join("\n", Strings(v.value.items))))
    else v
  }

  function JoinField(d: seq<Entry>, f: string): Result<seq<Entry>, Error>
  {
    match Lookup(d, f)
    case Some(JArray(items)) =>
      if AllStrings(items) then Ok(Store(d, f, JString(Join("\n", Strings(items))))) else Err(JoinTypeError)
    case _ => Ok(d)
  }

  /** The fields `fs` joined in order; the first list holding a non-string stops the pass. */
  function JoinFields(d: seq<Entry>, fs: seq<string>): Result<seq<Entry>, Error>
    decreases |fs|
  {
    if fs == [] then Ok(d)
    else match JoinFields(d, fs[..|fs| - 1])
      case Err(e) => Err(e)
      case Ok(d') => JoinField(d', fs[|fs| - 1])
  }

  method JoinListFields(response: seq<Entry>) returns (r: Result<seq<Entry>, Error>)
    ensures r == JoinFields(response, ListToStringFields)
  {
    r := Ok(response);
    for i := 0 to |ListToStringFields|
      invariant r == JoinFields(response, ListToStringFields[..i])
    {
      assert ListToStringFields[..i + 1][..i] == ListToStringFields[..i];
      if r.Ok? {
        var normalized := r.value;
        var field := ListToStringFields[i];
        var v := Lookup(normalized, field);
        if v.Some? && v.value.JArray? {
          if AllStrings(v.value.items) {
            r := Ok(Store(normalized, field, JString(Join("\n", Strings(v.value.items)))));
          } else {
            r := Err(JoinTypeError);
          }
        }
      }
    }
    assert ListToStringFields[..|ListToStringFields|] == ListToStringFields;
  }

  /** Joining fails exactly when a listed field holds a list with a non-string item; otherwise
    * every listed field is coerced, every other key is untouched and the key order is kept. */
  lemma {:induction false} JoinFieldsEffect(d: seq<Entry>, fs: seq<string>)
    ensures JoinFields(d, fs).Ok? <==> forall i :: 0 <= i < |fs| ==> Joinable(Lookup(d, fs[i]))
    ensures JoinFields(d, fs).Ok? ==>
      && Keys(JoinFields(d, fs).value) == Keys(d)
      && forall k :: Lookup(JoinFields(d, fs).value, k) == if k in fs then Coerced(Lookup(d, k)) else Lookup(d, k)
    decreases |fs|
  {
    if fs != [] {
      var init, f := fs[..|fs| - 1], fs[|fs| - 1];
      assert fs == init + [f];
      JoinFieldsEffect(d, init);
      match JoinFields(d, init)
      case Err(_) =>
      case Ok(d') =>
        assert Lookup(d', f) == if f in init then Coerced(Lookup(d, f)) else Lookup(d, f);
        assert forall k :: k in fs <==> k in init || k == f;
    }
  }

  /** A listed field holding a non-empty list of single-line strings ends as text that splits back into it. */
  lemma JoinedFieldSplitsBack(d: seq<Entry>, f: string, items: seq<string>)
    requires f in ListToStringFields && Lookup(d, f) == Some(JArray(StringValues(items)))
    requires |items| >= 1 && forall i :: 0 <= i < |items| ==> '\n' !in items[i]
    requires JoinFields(d, ListToStringFields).Ok?
    ensures exists t :: Lookup(JoinFields(d, ListToStringFields).value, f) == Some(JString(t)) && Split(t, '\n') == items
  {
    JoinFieldsEffect(d, ListToStringFields);
    assert Strings(StringValues(items)) == items;
    SplitJoin(items, '\n');
    assert "\n" == ['\n'];
  }

  // ----- skills_priority split into a list (gpt_service.py:149-151) -----

  /** Each piece stripped. */
  function StripEach(pieces: seq<string>): (r: seq<string>)
    ensures |r| == |pieces|
    ensures forall i :: 0 <= i < |pieces| ==> r[i] == Strip(pieces[i])
  {
    seq(|pieces|, i requires 0 <= i < |pieces| => Strip(pieces[i]))
  }

  /** `[s.strip() for s in text.split(',')]`: every piece is stripped and free of commas. */
  function SplitSkills(text: string): (r: seq<string>)
    ensures |r| >= 1
    ensures forall i :: 0 <= i < |r| ==> ',' !in r[i] && Strip(r[i]) == r[i]
  {
    var pieces := Split(text, ',');
    forall i | 0 <= i < |pieces| ensures ',' !in Strip(pieces[i]) && Strip(Strip(pieces[i])) == Strip(pieces[i]) {
      StripKeepsOut(pieces[i], ',');
      StripIdempotent(pieces[i]);
    }
    StripEach(pieces)
  }

  function CoerceSkillsPriority(d: seq<Entry>): (r: seq<Entry>)
    ensures Keys(r) == Keys(d)
    ensures forall k :: k != "skills_priority" ==> Lookup(r, k) == Lookup(d, k)
    ensures Lookup(r, "skills_priority") ==
      match Lookup(d, "skills_priority")
      case Some(JString(text)) => Some(JArray(StringValues(SplitSkills(text))))
      case other => other
  {
    match Lookup(d, "skills_priority")
    case Some(JString(text)) => Store(d, "skills_priority", JArray(StringValues(SplitSkills(text))))
    case _ => d
  }

  /** Every element after the first, behind a blank. */
  function Blanked(xs: seq<string>): (r: seq<string>)
    ensures |r| == |xs|
    ensures forall i :: 0 <= i < |xs| ==> r[i] == " " + xs[i]
  {
    seq(|xs|, i requires 0 <= i < |xs| => " " + xs[i])
  }

  lemma {:induction false} JoinCommaBlank(ys: seq<string>)
    requires |ys| >= 1
    ensures " " + Join(", ", ys) == Join([','], Blanked(ys))
    decreases |ys|
  {
    if |ys| > 1 {
      JoinCommaBlank(ys[1..]);
      assert Blanked(ys)[1..] == Blanked(ys[1..]);
      assert " " + Join(", ", ys) == (" " + ys[0]) + [','] + (" " + Join(", ", ys[1..]));
    }
  }

  /** `", ".join(items)` is the comma-join of the items, each after the first behind a blank. */
  lemma JoinCommaPieces(items: seq<string>)
    requires |items| >= 2
    ensures Join(", ", items) == Join([','], [items[0]] + Blanked(items[1..]))
  {
    JoinCommaBlank(items[1..]);
    JoinPiecesUnfold(items);
    CommaBlank(items[0], Join(", ", items[1..]));
  }

  lemma JoinPiecesUnfold(items: seq<string>)
    requires |items| >= 2
    ensures Join([','], [items[0]] + Blanked(items[1..])) == items[0] + [','] + Join([','], Blanked(items[1..]))
    ensures Join(", ", items) == items[0] + ", " + Join(", ", items[1..])
  {
    assert ([items[0]] + Blanked(items[1..]))[1..] == Blanked(items[1..]);
  }

  lemma CommaBlank(x: string, j: string)
    ensures x + [','] + (" " + j) == x + ", " + j
  {
    assert ", " == [','] + " ";
  }

  /** Round trip: a list of stripped, comma-free skills written as `", ".join(...)` splits back into the same list. */
  lemma SplitSkillsJoin(items: seq<string>)
    requires |items| >= 1
    requires forall i :: 0 <= i < |items| ==> ',' !in items[i] && Strip(items[i]) == items[i]
    ensures SplitSkills(Join(", ", items)) == items
  {
    SplitCommaJoin(items);
    StripBlankedPieces(items);
  }

  lemma SplitCommaJoin(items: seq<string>)
    requires |items| >= 1
    requires forall i :: 0 <= i < |items| ==> ',' !in items[i]
    ensures Split(Join(", ", items), ',') == [items[0]] + Blanked(items[1..])
  {
    var pieces := [items[0]] + Blanked(items[1..]);
    if |items| == 1 {
      assert pieces == items;
    } else {
      JoinCommaPieces(items);
    }
    BlankedCommaFree(items);
    SplitJoined(Join(", ", items), pieces, ',');
  }

  lemma BlankedCommaFree(items: seq<string>)
    requires |items| >= 1
    requires forall i :: 0 <= i < |items| ==> ',' !in items[i]
    ensures forall i :: 0 <= i < |items| ==> ',' !in ([items[0]] + Blanked(items[1..]))[i]
  {
    var pieces := [items[0]] + Blanked(items[1..]);
    assert forall i :: 1 <= i < |pieces| ==> pieces[i] == " " + items[i];
  }

  lemma StripBlankedPieces(items: seq<string>)
    requires |items| >= 1
    requires forall i :: 0 <= i < |items| ==> Strip(items[i]) == items[i]
    ensures StripEach([items[0]] + Blanked(items[1..])) == items
  {
    BlankedPiecesStripped(items);
    SameElements(StripEach([items[0]] + Blanked(items[1..])), items);
  }

  lemma SameElements(xs: seq<string>, ys: seq<string>)
    requires |xs| == |ys| && forall i :: 0 <= i < |xs| ==> xs[i] == ys[i]
    ensures xs == ys
  {
  }

  lemma BlankedPiecesStripped(items: seq<string>)
    requires |items| >= 1
    requires forall i :: 0 <= i < |items| ==> Strip(items[i]) == items[i]
    ensures forall i :: 0 <= i < |items| ==> StripEach([items[0]] + Blanked(items[1..]))[i] == items[i]
  {
    forall i | 1 <= i < |items| ensures StripEach([items[0]] + Blanked(items[1..]))[i] == items[i] {
      BlankedPieceStripped(items, i);
    }
  }

  lemma BlankedPieceStripped(items: seq<string>, i: nat)
    requires 1 <= i < |items| && Strip(items[i]) == items[i]
    ensures Strip(([items[0]] + Blanked(items[1..]))[i]) == items[i]
  {
    var blanked := Blanked(items[1..]);
    assert ([items[0]] + blanked)[i] == blanked[i - 1];
    assert items[1..][i - 1] == items[i];
    StripLeadingBlank(items[i], blanked[i - 1]);
  }

  // ----- required_skills synthesised from the skill sections (gpt_service.py:154-167) -----

  function SynthesizeRequiredSkills(d: seq<Entry>): (r: seq<Entry>)
    ensures forall k :: k != "required_skills" ==> Lookup(r, k) == Lookup(d, k)
    ensures "required_skills" in Keys(d) || "hard_skills" !in Keys(d) ==> r == d
    ensures "required_skills" !in Keys(d) && "hard_skills" in Keys(d) ==>
              Keys(r) == Keys(d) + ["required_skills"] && Lookup(r, "required_skills").value.JArray?
  {
    if "required_skills" !in Keys(d) && "hard_skills" in Keys(d) then
      var hard := GetOr(d, "hard_skills", JArray([]));
      var soft := GetOr(d, "soft_skills", JArray([]));
      var skills :=
        if hard.JArray? && soft.JArray? then JArray(hard.items + soft.items)
        else if hard.JArray? then hard
        else if soft.JArray? then soft
        else JArray([]);
      Store(d, "required_skills", skills)
    else d
  }

  /** The synthesised list is the hard skills followed by the soft skills, an absent soft section counting as empty. */
  lemma SynthesisConcatenates(d: seq<Entry>, hard: seq<Json>)
    requires "required_skills" !in Keys(d) && Lookup(d, "hard_skills") == Some(JArray(hard))
    ensures Lookup(SynthesizeRequiredSkills(d), "required_skills") ==
      match Lookup(d, "soft_skills")
      case None => Some(JArray(hard))
      case Some(JArray(soft)) => Some(JArray(hard + soft))
      case _ => Some(JArray(hard))
  {
    var soft := GetOr(d, "soft_skills", JArray([]));
    SynthesisStores(d, hard, soft);
    if Lookup(d, "soft_skills").None? {
      assert hard + [] == hard;
    }
  }

  /** When `hard_skills` is present but not a list, the synthesised value is the soft skills if they are a list,
    * and the empty list otherwise. */
  lemma SynthesisWithoutHardList(d: seq<Entry>)
    requires "required_skills" !in Keys(d) && "hard_skills" in Keys(d) && !Lookup(d, "hard_skills").value.JArray?
    ensures Lookup(SynthesizeRequiredSkills(d), "required_skills") ==
      match Lookup(d, "soft_skills")
      case Some(JArray(soft)) => Some(JArray(soft))
      case _ => Some(JArray([]))
  {
    var soft := GetOr(d, "soft_skills", JArray([]));
    SynthesisStoresOther(d, soft);
  }

  lemma SynthesisStoresOther(d: seq<Entry>, soft: Json)
    requires "required_skills" !in Keys(d) && "hard_skills" in Keys(d) && !Lookup(d, "hard_skills").value.JArray?
    requires soft == GetOr(d, "soft_skills", JArray([]))
    ensures SynthesizeRequiredSkills(d) == Store(d, "required_skills", if soft.JArray? then soft else JArray([]))
  {
    assert !GetOr(d, "hard_skills", JArray([])).JArray?;
  }

  lemma SynthesisStores(d: seq<Entry>, hard: seq<Json>, soft: Json)
    requires "required_skills" !in Keys(d) && Lookup(d, "hard_skills") == Some(JArray(hard))
    requires soft == GetOr(d, "soft_skills", JArray([]))
    ensures SynthesizeRequiredSkills(d)
         == Store(d, "required_skills", if soft.JArray? then JArray(hard + soft.items) else JArray(hard))
  {
    assert GetOr(d, "hard_skills", JArray([])) == JArray(hard);
  }

  // ----- Backfill and second validation (gpt_service.py:173-197) -----
  //
  // The backfill reads the text of a field's annotation. `str()` of the annotations in use is
  // `<class 'str'>`, `<class 'int'>`, `typing.List[str]`, `typing.Optional[...]` around one of
  // those, and `typing.Union[str, typing.List[str], NoneType]` for `Optional[Union[str, List[str]]]`,
  // whose text never mentions "Optional".

  predicate MentionsOptional(f: FieldSpec)
  {
    f.optional && f.kind != StrOrStrList
  }

  predicate MentionsList(f: FieldSpec)
  {
    f.kind == StrList || f.kind == StrOrStrList
  }

  predicate MentionsStr(f: FieldSpec)
  {
    f.kind != Int
  }

  predicate MentionsInt(f: FieldSpec)
  {
    f.kind == Int
  }

  /** The default written for a missing field, or `None` when the backfill skips it. */
  function BackfillDefault(f: FieldSpec): (r: Option<Json>)
    ensures r.Some? ==> Accepts(f, r.value)
    ensures r.Some? <==> !f.optional || f.kind == StrOrStrList
  {
    if MentionsOptional(f) then None
    else if MentionsList(f) then Some(JArray([]))
    else if MentionsStr(f) then Some(JString("Not specified"))
    else if MentionsInt(f) then Some(JInt(0))
    else None
  }

  function BackfillField(d: seq<Entry>, f: FieldSpec): seq<Entry>
  {
    if f.name !in Keys(d) && BackfillDefault(f).Some? then Store(d, f.name, BackfillDefault(f).value) else d
  }

  /** The schema's fields backfilled in declaration order. */
  function Backfill(s: Schema, d: seq<Entry>): seq<Entry>
    decreases |s|
  {
    if s == [] then d else BackfillField(Backfill(s[..|s| - 1], d), s[|s| - 1])
  }

  method FillMissingFields(s: Schema, response: seq<Entry>) returns (filled: seq<Entry>)
    ensures filled == Backfill(s, response)
  {
    filled := response;
    for i := 0 to |s|
      invariant filled == Backfill(s[..i], response)
    {
      var f := s[i];
      if f.name !in Keys(filled) {
        var dflt := BackfillDefault(f);
        if dflt.Some? {
          filled := Store(filled, f.name, dflt.value);
        }
      }
      assert s[..i + 1][..i] == s[..i];
    }
    assert s[..|s|] == s;
  }

  /** Reference reading of the backfill: the default of the first field named `k`. */
  function DefaultFor(s: Schema, k: string): Option<Json>
    decreases |s|
  {
    if s == [] then None
    else if s[0].name == k then BackfillDefault(s[0])
    else DefaultFor(s[1..], k)
  }

  lemma {:induction false} DefaultForSnoc(s: Schema, f: FieldSpec, k: string)
    ensures DefaultFor(s + [f], k) == if k in Names(s) then DefaultFor(s, k) else if f.name == k then BackfillDefault(f) else None
    decreases |s|
  {
    if s == [] {
    } else {
      assert (s + [f])[1..] == s[1..] + [f];
      assert Names(s) == [s[0].name] + Names(s[1..]);
      DefaultForSnoc(s[1..], f, k);
    }
  }

  /** Backfill adds the missing keys and touches no present key. */
  lemma {:induction false} BackfillLookup(s: Schema, d: seq<Entry>, k: string)
    requires Distinct(Names(s))
    ensures Lookup(Backfill(s, d), k) == if k in Keys(d) then Lookup(d, k) else DefaultFor(s, k)
    decreases |s|
  {
    if s != [] {
      var init, f := s[..|s| - 1], s[|s| - 1];
      assert init + [f] == s;
      assert Names(init) == Names(s)[..|s| - 1];
      assert f.name !in Names(init);
      var prev := Backfill(init, d);
      BackfillLookup(init, d, k);
      BackfillLookup(init, d, f.name);
      DefaultForSnoc(init, f, k);
      DefaultForAbsent(init, f.name);
      assert f.name in Keys(prev) <==> f.name in Keys(d);
      if k == f.name {
        assert DefaultFor(s, k) == BackfillDefault(f);
      } else {
        assert Lookup(Backfill(s, d), k) == Lookup(prev, k);
        if k !in Keys(d) && k !in Names(init) {
          DefaultForAbsent(init, k);
        }
      }
    }
  }

  lemma {:induction false} DefaultForAbsent(s: Schema, k: string)
    requires k !in Names(s)
    ensures DefaultFor(s, k) == None
    decreases |s|
  {
    if s != [] {
      assert Names(s[1..]) == Names(s)[1..];
      DefaultForAbsent(s[1..], k);
    }
  }

  lemma {:induction false} DefaultForAt(s: Schema, i: nat)
    requires Distinct(Names(s)) && i < |s|
    ensures DefaultFor(s, s[i].name) == BackfillDefault(s[i])
    decreases i
  {
    if i > 0 {
      assert Names(s[1..]) == Names(s)[1..];
      assert s[0].name == Names(s)[0] != Names(s)[i] == s[i].name;
      DefaultForAt(s[1..], i - 1);
    }
  }

  /** After the backfill each field reads what it read before, or its default when it read nothing. */
  lemma BackfillSource(s: Schema, d: seq<Entry>, i: nat)
    requires WellFormed(s) && i < |s|
    ensures Source(s[i], Backfill(s, d)) == if Source(s[i], d).Some? then Source(s[i], d) else BackfillDefault(s[i])
  {
    var f := s[i];
    BackfillLookup(s, d, f.name);
    DefaultForAt(s, i);
    if f.alias.Some? {
      assert f.alias.value !in Names(s) by {
        assert AliasesOf(s)[i] == f.alias;
      }
      BackfillLookup(s, d, f.alias.value);
      DefaultForAbsent(s, f.alias.value);
    }
  }

  /** A field whose value, if any, has the declared kind: what the backfill cannot repair. */
  predicate PresentValid(f: FieldSpec, d: seq<Entry>)
  {
    Source(f, d).None? || Accepts(f, Source(f, d).value)
  }

  /** Validation, and on failure the backfill followed by a second validation. */
  function ValidateWithRetry(s: Schema, d: seq<Entry>): (r: Result<seq<Entry>, Error>)
    ensures r.Ok? ==> Conforms(s, r.value)
    ensures r.Err? ==> r.error.ValidationFailed?
  {
    match Validate(s, d)
    case Ok(rec) => Ok(rec)
    case Err(_) => Validate(s, Backfill(s, d))
  }

  /** The retry succeeds exactly when every value the response does carry has the declared kind. */
  lemma RetrySucceedsIff(s: Schema, d: seq<Entry>)
    requires WellFormed(s)
    ensures ValidateWithRetry(s, d).Ok? <==> forall i :: 0 <= i < |s| ==> PresentValid(s[i], d)
  {
    forall i | 0 <= i < |s| ensures FieldValid(s[i], Backfill(s, d)) <==> PresentValid(s[i], d) {
      BackfillSource(s, d, i);
    }
  }

  /** The value a field ends with when the response lacks it and the backfill ran. */
  function Filled(f: FieldSpec): (v: Json)
    ensures Accepts(f, v)
  {
    match BackfillDefault(f)
    case Some(v) => v
    case None => JNull
  }

  /** After a retry, a field holds the response's value, or else its default (`None` for a skipped optional field). */
  lemma RetryValues(s: Schema, d: seq<Entry>, i: nat)
    requires WellFormed(s) && i < |s|
    requires Validate(s, d).Err? && ValidateWithRetry(s, d).Ok?
    ensures ValidateWithRetry(s, d).value[i].value == if Source(s[i], d).Some? then Source(s[i], d).value else Filled(s[i])
  {
    BackfillSource(s, d, i);
  }

  /** An empty object for a schema with a required field comes back with every field at its default. */
  lemma EmptyResponseDefaults(s: Schema, req: nat)
    requires WellFormed(s) && req < |s| && !s[req].optional
    ensures ValidateWithRetry(s, []).Ok?
    ensures forall i :: 0 <= i < |s| ==> ValidateWithRetry(s, []).value[i].value == Filled(s[i])
  {
    assert !FieldValid(s[req], []);
    RetrySucceedsIff(s, []);
    forall i | 0 <= i < |s| ensures ValidateWithRetry(s, []).value[i].value == Filled(s[i]) {
      RetryValues(s, [], i);
    }
  }

  // ----- The whole post-processing (gpt_service.py:116-201) -----

  /** Everything between parsing the response and validating it. */
  function Normalize(parsed: seq<Entry>): Result<seq<Entry>, Error>
  {
    var mapped := MapAliases(KeyCase.SnakeFields(parsed), FieldMappings);
    match JoinFields(mapped, ListToStringFields)
    case Err(e) => Err(e)
    case Ok(joined) => Ok(SynthesizeRequiredSkills(CoerceSkillsPriority(joined)))
  }

  /** `extract_with_prompts` after the model call: `response` is the parsed reply, or the error of the call. */
  function Extract(response: Result<Json, Error>, s: Schema): (r: Result<seq<Entry>, Error>)
    ensures r.Ok? ==> Conforms(s, r.value) && Keys(r.value) == Names(s)
    ensures r.Err? ==> r.error.GptExtractionFailed?
  {
    match response
    case Err(e) => Err(GptExtractionFailed(e))
    case Ok(JObject(parsed)) =>
      (match Normalize(parsed)
       case Err(e) => Err(GptExtractionFailed(e))
       case Ok(n) =>
         match ValidateWithRetry(s, n)
         case Ok(rec) => Ok(rec)
         case Err(e) => Err(GptExtractionFailed(e)))
    case Ok(_) => Err(GptExtractionFailed(NotAnObject))
  }

  method ExtractWithPrompts(response: Result<Json, Error>, s: Schema) returns (out: Result<seq<Entry>, Error>)
    ensures out == Extract(response, s)
  {
    if response.Err? {
      return Err(GptExtractionFailed(response.error));
    }
    if !response.value.JObject? {
      return Err(GptExtractionFailed(NotAnObject));
    }
    var normalized := KeyCase.CamelToSnake(response.value.fields);
    normalized := ApplyFieldMappings(normalized);
    var joined := JoinListFields(normalized);
    if joined.Err? {
      return Err(GptExtractionFailed(joined.error));
    }
    normalized := SynthesizeRequiredSkills(CoerceSkillsPriority(joined.value));
    var first := Validate(s, normalized);
    if first.Ok? {
      return Ok(first.value);
    }
    var filled := FillMissingFields(s, normalized);
    var second := Validate(s, filled);
    if second.Err? {
      return Err(GptExtractionFailed(second.error));
    }
    out := Ok(second.value);
  }

  /** For a reply that normalises, extraction succeeds exactly when every value it carries has its declared kind. */
  lemma ExtractSucceedsIff(parsed: seq<Entry>, s: Schema)
    requires WellFormed(s) && Normalize(parsed).Ok?
    ensures Extract(Ok(JObject(parsed)), s).Ok? <==> forall i :: 0 <= i < |s| ==> PresentValid(s[i], Normalize(parsed).value)
  {
    RetrySucceedsIff(s, Normalize(parsed).value);
  }

  lemma {:induction false} MapAliasesEmpty(table: seq<Alias>)
    ensures MapAliases([], table) == []
    decreases |table|
  {
    if table != [] {
      MapAliasesEmpty(table[..|table| - 1]);
    }
  }

  /** An empty JSON object yields the schema's defaults, provided the schema requires something. */
  lemma ExtractEmptyObject(s: Schema, req: nat)
    requires WellFormed(s) && req < |s| && !s[req].optional
    ensures Extract(Ok(JObject([])), s).Ok?
    ensures forall i :: 0 <= i < |s| ==> Extract(Ok(JObject([])), s).value[i].value == Filled(s[i])
  {
    MapAliasesEmpty(FieldMappings);
    JoinFieldsEffect([], ListToStringFields);
    assert Normalize([]) == Ok([]);
    EmptyResponseDefaults(s, req);
  }

  // ----- The two schemas the pipeline passes in -----

  /** No field is annotated `Union[...]`, so the annotation text says "Optional" exactly for the optional fields. */
  predicate NoUnion(s: Schema)
  {
    forall i :: 0 <= i < |s| ==> s[i].kind != StrOrStrList
  }

  lemma NoUnionConcat(a: Schema, b: Schema)
    requires NoUnion(a) && NoUnion(b)
    ensures NoUnion(a + b)
  {
    assert forall i :: |a| <= i < |a + b| ==> (a + b)[i] == b[i - |a|];
  }

  /** For the extraction and enhanced schemas the backfill writes a default exactly for the required fields. */
  lemma BackfillMatchesRequired()
    ensures forall i :: 0 <= i < |ExtractionSchema| ==> (BackfillDefault(ExtractionSchema[i]).Some? <==> !ExtractionSchema[i].optional)
    ensures forall i :: 0 <= i < |EnhancedSchema| ==> (BackfillDefault(EnhancedSchema[i]).Some? <==> !EnhancedSchema[i].optional)
  {
    assert NoUnion(ExtractionSchema);
    assert NoUnion(EnhancedOverview) && NoUnion(EnhancedRequirements);
    assert NoUnion(EnhancedTerms) && NoUnion(EnhancedCareer);
    NoUnionConcat(EnhancedOverview, EnhancedRequirements);
    NoUnionConcat(EnhancedOverview + EnhancedRequirements, EnhancedTerms);
    NoUnionConcat(EnhancedOverview + EnhancedRequirements + EnhancedTerms, EnhancedCareer);
  }

  /** A field with an alias present in the response takes the alias's value, whatever its own name holds. */
  lemma AliasWins(s: Schema, n: seq<Entry>, i: nat)
    requires WellFormed(s) && i < |s| && s[i].alias.Some? && s[i].alias.value in Keys(n)
    requires ValidateWithRetry(s, n).Ok?
    ensures Lookup(ValidateWithRetry(s, n).value, s[i].name) == Lookup(n, s[i].alias.value)
  {
    if Validate(s, n).Err? {
      BackfillSource(s, n, i);
    }
    ConformsLookup(s, ValidateWithRetry(s, n).value, i);
  }

  lemma EnhancedIndustryField()
    ensures EnhancedSchema[5] == FieldSpec("industry_name", Str, false, Some("industry"))
  {
  }

  /** In the enhanced record `industry_name` is read from `industry` whenever that key is present,
    * even though the alias table left a present `industry_name` alone. */
  lemma EnhancedIndustryFromAlias(n: seq<Entry>)
    requires "industry" in Keys(n) && ValidateWithRetry(EnhancedSchema, n).Ok?
    ensures Lookup(ValidateWithRetry(EnhancedSchema, n).value, "industry_name") == Lookup(n, "industry")
  {
    EnhancedWellFormed();
    EnhancedIndustryField();
    AliasWins(EnhancedSchema, n, 5);
  }
}
