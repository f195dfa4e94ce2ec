/** The field resolution of the browser form filler: which profile value a
    form label receives, how list-valued profile entries are flattened to
    text, the keyword fallback used when the language model is unavailable,
    and what is kept of the model's mappings. Page elements are an opaque
    type parameter `E`. */
module FormFiller {
  import opened Wrappers
  import opened Text
  import opened PyValues
  import opened LlmOutput
  import GoogleForms

  // ---------------------------------------------------------------------
  // _format_education, _format_experience, _format_skills

  /** `sep.join(items)`: every item must be a string, else TypeError. */
  function JoinStrs(sep: string, items: seq<Value>): (r: Py<string>)
    ensures r.Raise? <==> exists k :: 0 <= k < |items| && !items[k].PyStr?
    ensures r.Raise? ==> r.exc == TypeError
  {
    if forall k :: 0 <= k < |items| ==> items[k].PyStr? then
      Ok(Join(sep, seq(|items|, k requires 0 <= k < |items| => items[k].s)))
    else Raise(TypeError)
  }

  /** The piece of one dict item. */
  function Piece(d: Dict, k1: string, mid: string, k2: string): string {
    Str(GetOr(d, k1, PyStr(""))) + mid + Str(GetOr(d, k2, PyStr("")))
  }

  /** `f"{x.get(k1, '')}{mid}{x.get(k2, '')}"` for one list item; only a
      dict has `get`. */
  function PairPiece(item: Value, k1: string, mid: string, k2: string): (r: Py<seq<string>>)
    ensures r.Raise? <==> !item.PyDict?
  {
    if item.PyDict? then Ok([Piece(item.entries, k1, mid, k2)]) else Raise(AttributeError)
  }

  function PairFormatter(k1: string, mid: string, k2: string): Value -> Py<seq<string>> {
    item => PairPiece(item, k1, mid, k2)
  }

  /** The shared shape of `_format_education` and `_format_experience`: a
      non-empty list becomes its items' pieces joined by "; ", any other
      truthy value its `str`, a falsy value ''. */
  function FormatPairs(v: Value, k1: string, mid: string, k2: string): Py<string> {
    if v.PyList? && v.items != [] then
      var pieces :- CollectAll(v.items, PairFormatter(k1, mid, k2));
      Ok(Join("; ", pieces))
    else Ok(if Truthy(v) then Str(v) else "")
  }

  /** `_format_education`: "<degree> from <institution>" per item. */
  function FormatEducation(v: Value): (r: Py<string>)
    ensures !Truthy(v) ==> r == Ok("")
    ensures Truthy(v) && !v.PyList? ==> r == Ok(Str(v))
    ensures v.PyList? && v.items != [] ==> (r.Ok? <==> forall k :: 0 <= k < |v.items| ==> v.items[k].PyDict?)
    ensures v.PyList? && v.items != [] && r.Ok? ==>
      r.value == Join("; ", seq(|v.items|, k requires 0 <= k < |v.items| =>
                                  Piece(v.items[k].entries, "degree", " from ", "institution")))
  {
    FormatPairsCases(v, "degree", " from ", "institution");
    FormatPairs(v, "degree", " from ", "institution")
  }

  /** `_format_experience`: "<position> at <company>" per item. */
  function FormatExperience(v: Value): (r: Py<string>)
    ensures !Truthy(v) ==> r == Ok("")
    ensures Truthy(v) && !v.PyList? ==> r == Ok(Str(v))
    ensures v.PyList? && v.items != [] ==> (r.Ok? <==> forall k :: 0 <= k < |v.items| ==> v.items[k].PyDict?)
    ensures v.PyList? && v.items != [] && r.Ok? ==>
      r.value == Join("; ", seq(|v.items|, k requires 0 <= k < |v.items| =>
                                  Piece(v.items[k].entries, "position", " at ", "company")))
  {
    FormatPairsCases(v, "position", " at ", "company");
    FormatPairs(v, "position", " at ", "company")
  }

  /** `_format_skills`: any list, even an empty one, is joined by ", ". */
  function FormatSkills(v: Value): (r: Py<string>)
    ensures v.PyList? ==> (r.Raise? <==> exists k :: 0 <= k < |v.items| && !v.items[k].PyStr?)
    ensures r.Raise? ==> v.PyList? && r.exc == TypeError
    ensures v.PyList? && r.Ok? ==>
      r.value == Join(", ", seq(|v.items|, k requires 0 <= k < |v.items| => v.items[k].s))
    ensures !v.PyList? && Truthy(v) ==> r == Ok(Str(v))
    ensures !Truthy(v) ==> r == Ok("")
  {
    if v.PyList? then JoinStrs(", ", v.items)
    else Ok(if Truthy(v) then Str(v) else "")
  }

  /** What the flatteners make of each kind of value: '' for a falsy
      value, `str` for a truthy non-list, and for a non-empty list the
      pieces of its items joined by "; ", which needs every item to be a
      dict (AttributeError otherwise). */
  lemma FormatPairsCases(v: Value, k1: string, mid: string, k2: string)
    ensures !Truthy(v) ==> FormatPairs(v, k1, mid, k2) == Ok("")
    ensures Truthy(v) && !v.PyList? ==> FormatPairs(v, k1, mid, k2) == Ok(Str(v))
    ensures v.PyList? && v.items != [] ==>
      (FormatPairs(v, k1, mid, k2).Ok? <==> forall k :: 0 <= k < |v.items| ==> v.items[k].PyDict?)
    ensures v.PyList? && v.items != [] && FormatPairs(v, k1, mid, k2).Ok? ==>
      FormatPairs(v, k1, mid, k2).value ==
        Join("; ", seq(|v.items|, k requires 0 <= k < |v.items| => Piece(v.items[k].entries, k1, mid, k2)))
  {
    if v.PyList? && v.items != [] {
      var f := PairFormatter(k1, mid, k2);
      CollectOk(v.items, f);
      if forall k :: 0 <= k < |v.items| ==> v.items[k].PyDict? {
        var ps := seq(|v.items|, k requires 0 <= k < |v.items| => Piece(v.items[k].entries, k1, mid, k2));
        CollectMap(v.items, f, ps);
      }
    }
  }

  /** The pieces come back out of the flattened text when none holds ';'. */
  lemma FormatPairsSplit(v: Value, k1: string, mid: string, k2: string)
    requires v.PyList? && v.items != [] && forall k :: 0 <= k < |v.items| ==> v.items[k].PyDict?
    requires forall k :: 0 <= k < |v.items| ==> ';' !in Piece(v.items[k].entries, k1, mid, k2)
    ensures FormatPairs(v, k1, mid, k2).Ok?
    ensures Split(FormatPairs(v, k1, mid, k2).value, "; ") ==
      seq(|v.items|, k requires 0 <= k < |v.items| => Piece(v.items[k].entries, k1, mid, k2))
  {
    FormatPairsCases(v, k1, mid, k2);
    JoinSplit("; ", seq(|v.items|, k requires 0 <= k < |v.items| => Piece(v.items[k].entries, k1, mid, k2)));
  }

  /** `_format_skills` joins a list of strings with ", " (an empty list
      gives ''), and otherwise behaves like the other flatteners; a list of
      skills without ',' comes back out by splitting at ", ". */
  lemma FormatSkillsCases(v: Value)
    ensures v.PyList? ==>
      (FormatSkills(v).Ok? <==> forall k :: 0 <= k < |v.items| ==> v.items[k].PyStr?)
    ensures v == PyList([]) ==> FormatSkills(v) == Ok("")
    ensures !v.PyList? ==> FormatSkills(v) == Ok(if Truthy(v) then Str(v) else "")
    ensures (v.PyList? && v.items != [] &&
             forall k :: 0 <= k < |v.items| ==> v.items[k].PyStr? && ',' !in v.items[k].s) ==>
      Split(FormatSkills(v).value, ", ") == seq(|v.items|, k requires 0 <= k < |v.items| => v.items[k].s)
  {
    if v.PyList? && v.items != [] && forall k :: 0 <= k < |v.items| ==> v.items[k].PyStr? && ',' !in v.items[k].s {
      JoinSplit(", ", seq(|v.items|, k requires 0 <= k < |v.items| => v.items[k].s));
    }
  }

  // ---------------------------------------------------------------------
  // _get_value_for_field

  /** The keyword ladder of the form filler, in the order it is tested. */
  const FieldRows: seq<seq<string>> := [
    ["name", "full name", "your name"],
    ["email", "e-mail", "mail"],
    ["phone", "mobile", "contact", "number"],
    ["address", "location", "city"],
    ["education", "degree", "school", "university"],
    ["experience", "work", "job", "employment"],
    ["skill", "abilities", "competencies"],
    ["certification", "certificate", "license"]
  ]

  /** The profile key each row reads. */
  const CategoryKeys: seq<string> := [
    "Full Name", "Email", "Phone Number", "Address",
    "Education", "Work Experience", "Skills", "Certifications"
  ]

  /** The certification row: a list is joined by ", " (a missing key reads
      as the empty list), anything else, a null (None) value included, is
      passed through `str`. */
  function Certifications(profile: Dict): (r: Py<string>)
    ensures !HasKey(profile, "Certifications") ==> r == Ok("")
    ensures Lookup(profile, "Certifications") == Some(PyNone) ==> r == Ok("None")
    ensures r.Raise? <==>
      (var certs := GetOr(profile, "Certifications", PyList([]));
       certs.PyList? && exists k :: 0 <= k < |certs.items| && !certs.items[k].PyStr?)
    ensures r.Raise? ==> r.exc == TypeError
  {
    var certs := GetOr(profile, "Certifications", PyList([]));
    if certs.PyList? then JoinStrs(", ", certs.items) else Ok(Str(certs))
  }

  /** The value of category `k`: the first four rows return the profile
      value as it is (or ''), the others a flattened string. */
  function CategoryValue(k: nat, profile: Dict): (r: Py<Value>)
    requires k < |FieldRows|
    ensures k < 4 ==> r == Ok(GetOr(profile, CategoryKeys[k], PyStr("")))
    ensures k >= 4 && r.Ok? ==> r.value.PyStr?
  {
    if k < 4 then Ok(GetOr(profile, CategoryKeys[k], PyStr("")))
    else
      var s :- if k == 4 then FormatEducation(GetOr(profile, "Education", PyList([])))
               else if k == 5 then FormatExperience(GetOr(profile, "Work Experience", PyList([])))
               else if k == 6 then FormatSkills(GetOr(profile, "Skills", PyList([])))
               else Certifications(profile);
      Ok(PyStr(s))
  }

  /** The fallback loop's test: a truthy value outside the keys
      "raw_content" and "error". */
  predicate Eligible(item: (string, Value)) {
    Truthy(item.1) && item.0 != "raw_content" && item.0 != "error"
  }

  /** The first eligible value in insertion order. */
  function FirstAvailable(profile: Dict): (r: Option<Value>)
    ensures r.None? <==> forall k :: 0 <= k < |profile| ==> !Eligible(profile[k])
    ensures r.Some? ==> exists k :: (0 <= k < |profile| && Eligible(profile[k]) && r.value == profile[k].1
      && forall j :: 0 <= j < k ==> !Eligible(profile[j]))
    decreases |profile|
  {
    if profile == [] then None
    else if Eligible(profile[0]) then Some(profile[0].1)
    else
      var r := FirstAvailable(profile[1..]);
      assert forall k :: 1 <= k < |profile| ==> profile[k] == profile[1..][k - 1];
      r
  }

  /** The value of a label no category matches. */
  function Uncategorized(profile: Dict): Value {
    match FirstAvailable(profile)
    case Some(v) => PyStr(Str(v))
    case None => PyStr("")
  }

  /** What `_get_value_for_field` returns for a label. */
  function FieldValue(text: string, profile: Dict): Py<Value> {
    match FirstHit(Lower(text), FieldRows)
    case Some(k) => CategoryValue(k, profile)
    case None => Ok(Uncategorized(profile))
  }

  /** `_get_value_for_field`: the first matching category, else `str` of
      the first eligible profile value, else ''. */
  method ValueForField(text: string, profile: Dict) returns (r: Py<Value>)
    ensures r == FieldValue(text, profile)
  {
    var hit := FirstHit(Lower(text), FieldRows);
    if hit.Some? {
      return CategoryValue(hit.value, profile);
    }
    var i := 0;
    while i < |profile|
      invariant 0 <= i <= |profile|
      invariant forall j :: 0 <= j < i ==> !Eligible(profile[j])
    {
      if Eligible(profile[i]) {
        return Ok(PyStr(Str(profile[i].1)));
      }
      i := i + 1;
    }
    return Ok(PyStr(""));
  }

  /** The ladder's priority: the first row whose keyword occurs in the
      lowercased label decides, whatever later rows would say. */
  lemma FieldValueRow(text: string, profile: Dict, k: nat)
    requires k < |FieldRows| && AnyIn(Lower(text), FieldRows[k])
    requires forall j :: 0 <= j < k ==> !AnyIn(Lower(text), FieldRows[j])
    ensures FieldValue(text, profile) == CategoryValue(k, profile)
  {
  }

  /** A matched category never reaches the fallback: the result depends on
      that category's profile value alone. */
  lemma MatchedCategoryOnly(text: string, p1: Dict, p2: Dict)
    requires FirstHit(Lower(text), FieldRows).Some?
    requires Lookup(p1, CategoryKeys[FirstHit(Lower(text), FieldRows).value]) ==
             Lookup(p2, CategoryKeys[FirstHit(Lower(text), FieldRows).value])
    ensures FieldValue(text, p1) == FieldValue(text, p2)
  {
    CategoryDepends(FirstHit(Lower(text), FieldRows).value, p1, p2);
  }

  /** Category `k` reads the profile under its own key only. */
  lemma CategoryDepends(k: nat, p1: Dict, p2: Dict)
    requires k < |FieldRows|
    requires Lookup(p1, CategoryKeys[k]) == Lookup(p2, CategoryKeys[k])
    ensures CategoryValue(k, p1) == CategoryValue(k, p2)
  {
    var key := CategoryKeys[k];
    assert GetOr(p1, key, PyList([])) == GetOr(p2, key, PyList([]));
    assert GetOr(p1, key, PyStr("")) == GetOr(p2, key, PyStr(""));
  }

  /** A matched category whose profile value is missing or '' gives ''. */
  lemma EmptyCategory(k: nat, profile: Dict)
    requires k < |FieldRows|
    requires !HasKey(profile, CategoryKeys[k]) || Lookup(profile, CategoryKeys[k]) == Some(PyStr(""))
    ensures CategoryValue(k, profile) == Ok(PyStr(""))
  {
    var v := GetOr(profile, CategoryKeys[k], PyStr(""));
    if !HasKey(profile, CategoryKeys[k]) {
      assert GetOr(profile, CategoryKeys[k], PyList([])) == PyList([]);
    } else {
      assert v == PyStr("");
    }
  }

  /** Without a matching category the result is `str` of the first
      eligible value, and '' exactly when there is none. */
  lemma UncategorizedValue(profile: Dict)
    ensures Uncategorized(profile).PyStr?
    ensures Uncategorized(profile) == PyStr("") <==>
      forall k :: 0 <= k < |profile| ==> !Eligible(profile[k])
    ensures FirstAvailable(profile).Some? ==> Uncategorized(profile) == PyStr(Str(FirstAvailable(profile).value))
  {
    var a := FirstAvailable(profile);
    if a.Some? {
      var k :| 0 <= k < |profile| && Eligible(profile[k]) && a.value == profile[k].1;
      assert Str(a.value) != "" by {
        if a.value.PyStr? {
          assert a.value.s != "";
        }
      }
    }
  }

  /** The two services' ladders disagree: for the label "degree skill" the
      form filler reads the education entry (its education row comes before
      its skill row) while the Google Forms filler and the fallback below
      read the skills entry. */
  lemma LaddersDiffer(profile: Dict)
    ensures FieldValue(DegreeSkill, profile) == CategoryValue(4, profile)
    ensures GoogleForms.ProfileKeyFor(Lower(DegreeSkill)) == Some("Skills")
    ensures FirstHit(Lower(DegreeSkill), FallbackRows) == Some(3)
  {
    DegreeSkillLower();
    DegreeSkillFiller(profile);
    DegreeSkillForms();
  }

  lemma DegreeSkillLower()
    ensures Lower(DegreeSkill) == DegreeSkill
  {
  }

  lemma DegreeSkillFiller(profile: Dict)
    ensures FieldValue(DegreeSkill, profile) == CategoryValue(4, profile)
  {
    DegreeSkillLower();
    DegreeSkillEducation();
  }

  /** The first four rows of the form filler miss "degree skill" and the
      education row hits it. */
  lemma DegreeSkillEducation()
    ensures FirstHit(DegreeSkill, FieldRows) == Some(4)
  {
    DegreeSkillRow0Field();
    DegreeSkillRow1Field();
    DegreeSkillRow2Field();
    DegreeSkillRow3();
    OccursThenContains(DegreeSkill, "degree", 0);
    assert AnyIn(DegreeSkill, FieldRows[4]) by { assert FieldRows[4][1] == "degree"; }
    FirstHitIs(DegreeSkill, FieldRows, 4);
  }

  lemma DegreeSkillForms()
    ensures GoogleForms.ProfileKeyFor(DegreeSkill) == Some("Skills")
    ensures FirstHit(DegreeSkill, FallbackRows) == Some(3)
  {
    DegreeSkillSkills();
    SameSixRows();
    GoogleForms.ProfileKeyRow(DegreeSkill, 3);
  }

  /** The first three rows of the fallback miss "degree skill" and the
      skill row hits it. */
  lemma DegreeSkillSkills()
    ensures AnyIn(DegreeSkill, FallbackRows[3])
    ensures FirstHit(DegreeSkill, FallbackRows) == Some(3)
  {
    DegreeSkillRow0Fallback();
    DegreeSkillRow1Fallback();
    DegreeSkillRow2Fallback();
    OccursThenContains(DegreeSkill, "skill", 7);
    assert AnyIn(DegreeSkill, FallbackRows[3]) by { assert FallbackRows[3][0] == "skill"; }
    FirstHitIs(DegreeSkill, FallbackRows, 3);
  }

  const DegreeSkill := "degree skill"

  /** The fallback ladder is the Google Forms filler's ladder. */
  lemma SameSixRows()
    ensures FallbackRows == GoogleForms.FormRows
  {
  }

  // "degree skill" has no 'n', 'f', 'y', 'm', '-', 'p', 'c', 'a', 'o'.

  lemma DegreeSkillRow0Field()
    ensures !AnyIn(DegreeSkill, FieldRows[0])
  {
    RowMissing(DegreeSkill, FieldRows[0], [0, 0, 0]);
  }

  lemma DegreeSkillRow0Fallback()
    ensures !AnyIn(DegreeSkill, FallbackRows[0])
  {
    RowMissing(DegreeSkill, FallbackRows[0], [0, 0]);
  }

  lemma DegreeSkillRow1Field()
    ensures !AnyIn(DegreeSkill, FieldRows[1])
  {
    RowMissing(DegreeSkill, FieldRows[1], [1, 1, 0]);
  }

  lemma DegreeSkillRow1Fallback()
    ensures !AnyIn(DegreeSkill, FallbackRows[1])
  {
    RowMissing(DegreeSkill, FallbackRows[1], [1, 0]);
  }

  lemma DegreeSkillRow2Field()
    ensures !AnyIn(DegreeSkill, FieldRows[2])
  {
    RowMissing(DegreeSkill, FieldRows[2], [0, 0, 0, 0]);
  }

  lemma DegreeSkillRow2Fallback()
    ensures !AnyIn(DegreeSkill, FallbackRows[2])
  {
    RowMissing(DegreeSkill, FallbackRows[2], [0, 0, 0]);
  }

  lemma DegreeSkillRow3()
    ensures !AnyIn(DegreeSkill, FieldRows[3])
  {
    RowMissing(DegreeSkill, FieldRows[3], [0, 1, 0]);
  }

  // ---------------------------------------------------------------------
  // _fallback_field_mapping

  /** One record of `field_contexts`: the element's position among the
      page's elements, its lowercased label text, and the element. */
  datatype FieldContext<E> = FieldContext(index: int, context: string, element: E)

  /** One mapping: the element and the values of the keys "field_name",
      "value" and "confidence". */
  datatype Mapping<E> = Mapping(element: E, fieldName: Value, value: Value, confidence: Value)

  /** The fallback's keyword ladder, in the order it is tested. */
  const FallbackRows: seq<seq<string>> := [
    ["name", "full name"],
    ["email", "mail"],
    ["phone", "mobile", "contact"],
    ["skill", "technology"],
    ["education", "degree"],
    ["experience", "work", "job"]
  ]

  /** The field name each row gives. */
  const FallbackNames: seq<string> := ["Name", "Email", "Phone", "Skills", "Education", "Experience"]

  const FallbackConfidence: Value := PyFloat(0.8, "0.8")

  /** The entry of `data_map` a row reads: name, email and phone as they
      are in the profile, skills, education and experience through `str`. */
  function DataMapValue(k: nat, profile: Dict): (r: Value)
    requires k < |FallbackRows|
    ensures k >= 3 ==> r.PyStr?
    ensures k == 3 && Lookup(profile, "Skills") == Some(PyNone) ==> r == PyStr("None")
    ensures k == 4 && Lookup(profile, "Education") == Some(PyNone) ==> r == PyStr("None")
    ensures k == 5 && Lookup(profile, "Work Experience") == Some(PyNone) ==> r == PyStr("None")
  {
    if k == 0 then GetOr(profile, "Full Name", PyStr(""))
    else if k == 1 then GetOr(profile, "Email", PyStr(""))
    else if k == 2 then GetOr(profile, "Phone Number", PyStr(""))
    else if k == 3 then PyStr(Str(GetOr(profile, "Skills", PyStr(""))))
    else if k == 4 then PyStr(Str(GetOr(profile, "Education", PyStr(""))))
    else PyStr(Str(GetOr(profile, "Work Experience", PyStr(""))))
  }

  /** The mappings one context contributes: one when a row matches and its
      value is truthy with a non-blank `str`, else none. */
  function FallbackOne<E>(c: FieldContext<E>, profile: Dict): seq<Mapping<E>> {
    match FirstHit(Lower(c.context), FallbackRows)
    case None => []
    case Some(k) =>
      var v := DataMapValue(k, profile);
      if Truthy(v) && NonBlank(v) then [Mapping(c.element, PyStr(FallbackNames[k]), PyStr(Str(v)), FallbackConfidence)]
      else []
  }

  /** The mappings of all contexts, in order. */
  function Fallback<E>(cs: seq<FieldContext<E>>, profile: Dict): seq<Mapping<E>>
    decreases |cs|
  {
    if cs == [] then [] else Fallback(cs[..|cs| - 1], profile) + FallbackOne(cs[|cs| - 1], profile)
  }

  /** `_fallback_field_mapping`. */
  method FallbackFieldMapping<E>(cs: seq<FieldContext<E>>, profile: Dict) returns (r: seq<Mapping<E>>)
    ensures r == Fallback(cs, profile)
  {
    r := [];
    var i := 0;
    while i < |cs|
      invariant 0 <= i <= |cs|
      invariant r == Fallback(cs[..i], profile)
    {
      assert cs[..i + 1][..i] == cs[..i];
      r := r + FallbackOne(cs[i], profile);
      i := i + 1;
    }
    assert cs[..i] == cs;
  }

  /** The fallback works context by context: the mappings of a sequence of
      contexts are those of its parts, in order. */
  lemma {:induction false} FallbackConcat<E>(cs: seq<FieldContext<E>>, ds: seq<FieldContext<E>>, profile: Dict)
    ensures Fallback(cs + ds, profile) == Fallback(cs, profile) + Fallback(ds, profile)
    decreases |ds|
  {
    if ds != [] {
      var n := |ds| - 1;
      assert (cs + ds)[..|cs + ds| - 1] == cs + ds[..n];
      assert (cs + ds)[|cs + ds| - 1] == ds[n];
      FallbackConcat(cs, ds[..n], profile);
      assert Fallback(cs + ds, profile) == Fallback(cs + ds[..n], profile) + FallbackOne(ds[n], profile);
    } else {
      assert cs + ds == cs;
    }
  }

  /** At most one mapping per context, for that context's element, with a
      non-blank string value, confidence 0.8 and the name of the first
      matching row; a context no row matches gives none. */
  lemma FallbackOneShape<E>(c: FieldContext<E>, profile: Dict)
    ensures |FallbackOne(c, profile)| <= 1
    ensures FirstHit(Lower(c.context), FallbackRows).None? ==> FallbackOne(c, profile) == []
    ensures |FallbackOne(c, profile)| == 1 ==>
      (var m := FallbackOne(c, profile)[0];
       var k := FirstHit(Lower(c.context), FallbackRows).value;
       m.element == c.element && m.fieldName == PyStr(FallbackNames[k])
       && m.value == PyStr(Str(DataMapValue(k, profile))) && NonBlank(m.value)
       && m.confidence == FallbackConfidence)
  {
  }

  /** The fallback ladder's priority: the first matching row decides the
      field name and the profile entry read. */
  lemma FallbackRow<E>(c: FieldContext<E>, profile: Dict, k: nat)
    requires k < |FallbackRows| && AnyIn(Lower(c.context), FallbackRows[k])
    requires forall j :: 0 <= j < k ==> !AnyIn(Lower(c.context), FallbackRows[j])
    ensures FallbackOne(c, profile) ==
      if Truthy(DataMapValue(k, profile)) && NonBlank(DataMapValue(k, profile))
      then [Mapping(c.element, PyStr(FallbackNames[k]), PyStr(Str(DataMapValue(k, profile))), FallbackConfidence)]
      else []
  {
    FirstHitIs(Lower(c.context), FallbackRows, k);
  }

  /** Every fallback mapping has a non-blank string value, confidence 0.8
      and one of the six field names, and there are at most as many
      mappings as contexts. */
  lemma {:induction false} FallbackMappings<E>(cs: seq<FieldContext<E>>, profile: Dict)
    ensures |Fallback(cs, profile)| <= |cs|
    ensures forall m :: m in Fallback(cs, profile) ==>
      (m.value.PyStr? && NonBlank(m.value) && m.confidence == FallbackConfidence
       && m.fieldName.PyStr? && m.fieldName.s in FallbackNames)
    decreases |cs|
  {
    if cs != [] {
      FallbackMappings(cs[..|cs| - 1], profile);
      FallbackOneShape(cs[|cs| - 1], profile);
    }
  }

  // ---------------------------------------------------------------------
  // _get_ai_field_mappings: the overlay of form field information

  /** One record of `fields_info`; `caption` (the label) is None until the overlay sets it. */
  datatype FieldInfo = FieldInfo(index: int, context: string, kind: Value, caption: Option<Value>)

  function BaseInfo<E>(c: FieldContext<E>): FieldInfo {
    FieldInfo(c.index, c.context, PyStr("text"), None)
  }

  /** The fields to overlay: None when `form_fields.get('fields')` is falsy. */
  function FieldsSpec(formFields: Dict): Py<Option<seq<Value>>> {
    var f := GetOr(formFields, "fields", PyNone);
    if !Truthy(f) then Ok(None)
    else
      var ffs :- Iterate(f);
      Ok(Some(ffs))
  }

  /** Copying "label" and "type" from one form field; only a dict has `get`. */
  function Overlay1(info: FieldInfo, ff: Value): (r: Py<FieldInfo>)
    ensures r.Raise? <==> !ff.PyDict?
    ensures r.Raise? ==> r.exc == AttributeError
  {
    if ff.PyDict? then
      Ok(info.(caption := Some(GetOr(ff.entries, "label", PyStr(""))), kind := GetOr(ff.entries, "type", PyStr("text"))))
    else Raise(AttributeError)
  }

  /** The overlay of `ffs` on `infos`: position `i` takes the label and
      type of `ffs[i]` for every `i` below both lengths; it raises when one
      of those form fields is not a dict. */
  function OverlayAll(infos: seq<FieldInfo>, ffs: seq<Value>): Py<seq<FieldInfo>> {
    if exists i :: 0 <= i < |ffs| && i < |infos| && !ffs[i].PyDict? then Raise(AttributeError)
    else Ok(seq(|infos|, k requires 0 <= k < |infos| =>
      if k < |ffs| then Overlay1(infos[k], ffs[k]).value else infos[k]))
  }

  /** `fields_info` after the overlay. */
  function ExpectedInfos<E>(cs: seq<FieldContext<E>>, formFields: Dict): Py<seq<FieldInfo>> {
    var base := seq(|cs|, k requires 0 <= k < |cs| => BaseInfo(cs[k]));
    var spec :- FieldsSpec(formFields);
    match spec
    case None => Ok(base)
    case Some(ffs) => OverlayAll(base, ffs)
  }

  /** Building `fields_info` and overlaying it in place. */
  method FieldsInfo<E>(cs: seq<FieldContext<E>>, formFields: Dict) returns (r: Py<seq<FieldInfo>>)
    ensures r == ExpectedInfos(cs, formFields)
  {
    var a := new FieldInfo[|cs|];
    for k := 0 to |cs|
      invariant forall j :: 0 <= j < k ==> a[j] == BaseInfo(cs[j])
    {
      a[k] := BaseInfo(cs[k]);
    }
    ghost var base := a[..];
    assert base == seq(|cs|, k requires 0 <= k < |cs| => BaseInfo(cs[k]));
    var spec := FieldsSpec(formFields);
    if spec.Raise? {
      return Raise(spec.exc);
    }
    if spec.value.None? {
      return Ok(a[..]);
    }
    var ffs := spec.value.value;
    var i := 0;
    while i < |ffs|
      invariant 0 <= i <= |ffs|
      invariant forall j :: 0 <= j < i && j < |cs| ==> ffs[j].PyDict?
      invariant forall j :: 0 <= j < |cs| ==>
        a[j] == if j < i then Overlay1(base[j], ffs[j]).value else base[j]
    {
      if i < a.Length {
        var o := Overlay1(a[i], ffs[i]);
        if o.Raise? {
          return Raise(o.exc);
        }
        a[i] := o.value;
      }
      i := i + 1;
    }
    assert a[..] == seq(|base|, k requires 0 <= k < |base| =>
      if k < |ffs| then Overlay1(base[k], ffs[k]).value else base[k]);
    return Ok(a[..]);
  }

  /** After the overlay there is one record per context with its index and
      context; the first `len(form_fields['fields'])` records carry that
      field's label and type ('' and 'text' when missing); every other
      record keeps type 'text' and has no label. */
  lemma OverlayShape<E>(cs: seq<FieldContext<E>>, formFields: Dict)
    requires ExpectedInfos(cs, formFields).Ok?
    ensures |ExpectedInfos(cs, formFields).value| == |cs|
    ensures forall k :: 0 <= k < |cs| ==>
      ExpectedInfos(cs, formFields).value[k].index == cs[k].index
      && ExpectedInfos(cs, formFields).value[k].context == cs[k].context
    ensures FieldsSpec(formFields).value.None? ==>
      forall k :: 0 <= k < |cs| ==> ExpectedInfos(cs, formFields).value[k] == BaseInfo(cs[k])
    ensures FieldsSpec(formFields).value.Some? ==>
      (var ffs := FieldsSpec(formFields).value.value;
       forall k :: 0 <= k < |cs| ==>
         (k < |ffs| ==>
            (ffs[k].PyDict?
             && ExpectedInfos(cs, formFields).value[k].caption == Some(GetOr(ffs[k].entries, "label", PyStr("")))
             && ExpectedInfos(cs, formFields).value[k].kind == GetOr(ffs[k].entries, "type", PyStr("text"))))
         && (k >= |ffs| ==> ExpectedInfos(cs, formFields).value[k] == BaseInfo(cs[k])))
  {
  }

  // ---------------------------------------------------------------------
  // _get_ai_field_mappings: converting the model's mappings

  /** `0 <= x < n` for `x` compared with integers: numbers compare by
      value, anything else raises TypeError. */
  function InRange(x: Value, n: nat): (r: Py<bool>)
    ensures r.Raise? <==> AsNumber(x).None?
    ensures r.Ok? ==> r.value == (0.0 <= AsNumber(x).value < n as real)
  {
    match AsNumber(x)
    case None => Raise(TypeError)
    case Some(v) => Ok(0.0 <= v < n as real)
  }

  /** Using `x` as a list index: ints and bools only. */
  function AsListIndex(x: Value): (r: Py<int>)
    ensures r.Raise? <==> !(x.PyInt? || x.PyBool?)
    ensures r.Ok? ==> AsNumber(x) == Some(r.value as real)
  {
    match x
    case PyInt(i) => Ok(i)
    case PyBool(b) => Ok(if b then 1 else 0)
    case _ => Raise(TypeError)
  }

  /** The mapping one record of the model's reply turns into: none unless
      its "field_index" (default -1) is in range; "field_name" defaults to
      "Field <index>", "value" to '' and "confidence" to 0.0. */
  function ConvertOne<E>(rec: Value, cs: seq<FieldContext<E>>): (r: Py<seq<Mapping<E>>>)
    ensures r.Ok? ==> |r.value| <= 1
  {
    if !rec.PyDict? then Raise(AttributeError)
    else
      var idx := GetOr(rec.entries, "field_index", PyInt(-1));
      var inRange :- InRange(idx, |cs|);
      if !inRange then Ok([])
      else
        var i :- AsListIndex(idx);
        Ok([MappingOf(rec.entries, idx, cs[i].element)])
  }

  /** The mapping a kept record gives for `element`. */
  function MappingOf<E>(d: Dict, idx: Value, element: E): Mapping<E> {
    Mapping(element,
            GetOr(d, "field_name", PyStr("Field " + Str(idx))),
            GetOr(d, "value", PyStr("")),
            GetOr(d, "confidence", PyFloat(0.0, "0.0")))
  }

  function Converter<E>(cs: seq<FieldContext<E>>): Value -> Py<seq<Mapping<E>>> {
    rec => ConvertOne(rec, cs)
  }

  /** The conversion loop over the parsed reply (`len` of it is taken
      first, for the log line). */
  function AiMappings<E>(parsed: Value, cs: seq<FieldContext<E>>): Py<seq<Mapping<E>>> {
    var n :- Len(parsed);
    CollectAll(Iterate(parsed).value, Converter(cs))
  }

  /** The conversion loop, one record at a time. */
  method ConvertAiMappings<E>(parsed: Value, cs: seq<FieldContext<E>>) returns (r: Py<seq<Mapping<E>>>)
    ensures r == AiMappings(parsed, cs)
  {
    var n := Len(parsed);
    if n.Raise? {
      return Raise(n.exc);
    }
    var recs := Iterate(parsed).value;
    var f := Converter(cs);
    var out: seq<Mapping<E>> := [];
    var i := 0;
    while i < |recs|
      invariant 0 <= i <= |recs|
      invariant CollectAll(recs[..i], f) == Ok(out)
    {
      CollectStep(recs, f, i);
      var m := f(recs[i]);
      if m.Raise? {
        CollectRaised(recs, f, i + 1);
        return Raise(m.exc);
      }
      out := out + m.value;
      i := i + 1;
    }
    assert recs[..i] == recs;
    return Ok(out);
  }

  /** A dict record with an in-range integer index and nothing else maps
      that context's element under the defaults. */
  lemma ConvertDefaults<E>(i: int, cs: seq<FieldContext<E>>)
    requires 0 <= i < |cs|
    ensures ConvertOne(PyDict([("field_index", PyInt(i))]), cs) ==
      Ok([Mapping(cs[i].element, PyStr("Field " + IntToStr(i)), PyStr(""), PyFloat(0.0, "0.0"))])
  {
  }

  /** A record whose index is a number outside `[0, len(field_contexts))`,
      or that has no index, is dropped. */
  lemma ConvertOutOfRange<E>(d: Dict, cs: seq<FieldContext<E>>)
    requires AsNumber(GetOr(d, "field_index", PyInt(-1))).Some?
    requires !(0.0 <= AsNumber(GetOr(d, "field_index", PyInt(-1))).value < |cs| as real)
    ensures ConvertOne(PyDict(d), cs) == Ok([])
  {
  }

  /** Confidence does not decide whether a record is kept: setting it to
      any value keeps, drops or rejects the record exactly as before, and a
      kept record carries the value given. */
  lemma NoConfidenceGate<E>(d: Dict, c: Value, cs: seq<FieldContext<E>>)
    ensures ConvertOne(PyDict(Put(d, "confidence", c)), cs) ==
      match ConvertOne(PyDict(d), cs)
      case Raise(e) => Raise(e)
      case Ok(ms) => Ok(if ms == [] then [] else [ms[0].(confidence := c)])
  {
    PutLookup(d, "confidence", c, "field_index");
    var idx := GetOr(d, "field_index", PyInt(-1));
    assert GetOr(Put(d, "confidence", c), "field_index", PyInt(-1)) == idx;
    if InRange(idx, |cs|) == Ok(true) && AsListIndex(idx).Ok? {
      MappingOfConfidence(d, c, idx, cs[AsListIndex(idx).value].element);
    }
  }

  /** Setting "confidence" changes the confidence of the mapping and nothing else. */
  lemma MappingOfConfidence<E>(d: Dict, c: Value, idx: Value, element: E)
    ensures MappingOf(Put(d, "confidence", c), idx, element) == MappingOf(d, idx, element).(confidence := c)
  {
    PutLookup(d, "confidence", c, "field_name");
    PutLookup(d, "confidence", c, "value");
  }

  /** Every converted mapping is for the element of a context whose
      position is the record's in-range index. */
  lemma AiMappingsFromContexts<E>(parsed: Value, cs: seq<FieldContext<E>>)
    requires AiMappings(parsed, cs).Ok?
    ensures |AiMappings(parsed, cs).value| <= |Iterate(parsed).value|
    ensures forall m :: m in AiMappings(parsed, cs).value ==> exists i :: 0 <= i < |cs| && m.element == cs[i].element
  {
    var recs := Iterate(parsed).value;
    var f := Converter(cs);
    var out := AiMappings(parsed, cs).value;
    assert CollectAll(recs, f) == Ok(out);
    CollectAtMostOne(recs, f);
    forall m | m in out ensures exists i :: 0 <= i < |cs| && m.element == cs[i].element {
      var k :| 0 <= k < |out| && out[k] == m;
      CollectFrom(recs, f, k);
      var i, j :| 0 <= i < |recs| && f(recs[i]).Ok? && 0 <= j < |f(recs[i]).value|
        && f(recs[i]).value[j] == m;
      assert f(recs[i]) == ConvertOne(recs[i], cs);
      ConvertOneElement(recs[i], cs);
      assert j == 0;
    }
  }

  /** A dict record whose index is an int or a bool inside
      `[0, len(field_contexts))` is kept: its mapping carries the element at
      that index, and its name, value and confidence or their defaults. */
  lemma ConvertKept<E>(d: Dict, cs: seq<FieldContext<E>>)
    requires GetOr(d, "field_index", PyInt(-1)).PyInt? || GetOr(d, "field_index", PyInt(-1)).PyBool?
    requires 0 <= AsListIndex(GetOr(d, "field_index", PyInt(-1))).value < |cs|
    ensures var idx := GetOr(d, "field_index", PyInt(-1));
      ConvertOne(PyDict(d), cs) ==
        Ok([Mapping(cs[AsListIndex(idx).value].element,
                    GetOr(d, "field_name", PyStr("Field " + Str(idx))),
                    GetOr(d, "value", PyStr("")),
                    GetOr(d, "confidence", PyFloat(0.0, "0.0")))])
  {
  }

  /** A converted record is a dict whose index is an int or a bool inside
      `[0, len(field_contexts))`, and its mapping is built from the context
      at that index. */
  lemma ConvertOneElement<E>(rec: Value, cs: seq<FieldContext<E>>)
    requires ConvertOne(rec, cs).Ok? && |ConvertOne(rec, cs).value| == 1
    ensures rec.PyDict?
    ensures var idx := GetOr(rec.entries, "field_index", PyInt(-1));
      AsListIndex(idx).Ok? && 0 <= AsListIndex(idx).value < |cs| &&
      ConvertOne(rec, cs).value[0] == MappingOf(rec.entries, idx, cs[AsListIndex(idx).value].element)
    ensures exists i :: 0 <= i < |cs| && ConvertOne(rec, cs).value[0].element == cs[i].element
  {
    var idx := GetOr(rec.entries, "field_index", PyInt(-1));
    var i := AsListIndex(idx).value;
    assert ConvertOne(rec, cs).value[0].element == cs[i].element;
  }

  /** A loop whose turns yield at most one element each yields at most
      one per input. */
  lemma {:induction false} CollectAtMostOne<E>(recs: seq<Value>, f: Value -> Py<seq<Mapping<E>>>)
    requires CollectAll(recs, f).Ok?
    requires forall x :: f(x).Ok? ==> |f(x).value| <= 1
    ensures |CollectAll(recs, f).value| <= |recs|
    decreases |recs|
  {
    if recs != [] {
      CollectAtMostOne(recs[..|recs| - 1], f);
    }
  }

  // ---------------------------------------------------------------------
  // _get_ai_field_mappings: the whole

  /** The mappings for the contexts: the model's, when the overlay, the
      completion, the JSON parse of the fenced reply and the conversion all
      succeed; the fallback's otherwise. The completion is asked with the
      profile and the overlaid field information. */
  function AiOutcome<E>(cs: seq<FieldContext<E>>, profile: Dict, formFields: Dict,
                        ask: (Dict, seq<FieldInfo>) -> Completion, loads: string -> Py<Value>): seq<Mapping<E>> {
    match ExpectedInfos(cs, formFields)
    case Raise(_) => Fallback(cs, profile)
    case Ok(infos) =>
      match ask(profile, infos)
      case Reply(t) =>
        (match loads(Strip(FenceBody(t), None))
         case Raise(_) => Fallback(cs, profile)
         case Ok(parsed) =>
           match AiMappings(parsed, cs)
           case Ok(ms) => ms
           case Raise(_) => Fallback(cs, profile))
      case _ => Fallback(cs, profile)
  }

  /** `_get_ai_field_mappings`. */
  method AiFieldMappings<E>(cs: seq<FieldContext<E>>, profile: Dict, formFields: Dict,
                            ask: (Dict, seq<FieldInfo>) -> Completion, loads: string -> Py<Value>)
    returns (r: seq<Mapping<E>>)
    ensures r == AiOutcome(cs, profile, formFields, ask, loads)
  {
    var infos := FieldsInfo(cs, formFields);
    if infos.Raise? {
      r := FallbackFieldMapping(cs, profile);
      return;
    }
    var reply := ask(profile, infos.value);
    if !reply.Reply? {
      r := FallbackFieldMapping(cs, profile);
      return;
    }
    var content := FenceBody(reply.text);
    var parsed := loads(Strip(content, None));
    if parsed.Raise? {
      r := FallbackFieldMapping(cs, profile);
      return;
    }
    var converted := ConvertAiMappings(parsed.value, cs);
    if converted.Raise? {
      r := FallbackFieldMapping(cs, profile);
      return;
    }
    r := converted.value;
  }

  /** Without a client, or when the completion fails, the result is the
      fallback's. */
  lemma NoModelFallback<E>(cs: seq<FieldContext<E>>, profile: Dict, formFields: Dict,
                           ask: (Dict, seq<FieldInfo>) -> Completion, loads: string -> Py<Value>)
    requires ExpectedInfos(cs, formFields).Raise? || !ask(profile, ExpectedInfos(cs, formFields).value).Reply?
    ensures AiOutcome(cs, profile, formFields, ask, loads) == Fallback(cs, profile)
  {
  }

  /** Whichever way it is produced, every mapping is for the element of one
      of the contexts. */
  lemma OutcomeElements<E>(cs: seq<FieldContext<E>>, profile: Dict, formFields: Dict,
                           ask: (Dict, seq<FieldInfo>) -> Completion, loads: string -> Py<Value>)
    ensures forall m :: m in AiOutcome(cs, profile, formFields, ask, loads) ==>
      exists i :: 0 <= i < |cs| && m.element == cs[i].element
  {
    var r := AiOutcome(cs, profile, formFields, ask, loads);
    if r == Fallback(cs, profile) {
      FallbackElements(cs, profile);
    } else {
      var infos := ExpectedInfos(cs, formFields).value;
      var parsed := loads(Strip(FenceBody(ask(profile, infos).text), None)).value;
      AiMappingsFromContexts(parsed, cs);
    }
  }

  /** Every fallback mapping is for the element of one of the contexts. */
  lemma {:induction false} FallbackElements<E>(cs: seq<FieldContext<E>>, profile: Dict)
    ensures forall m :: m in Fallback(cs, profile) ==> exists i :: 0 <= i < |cs| && m.element == cs[i].element
    decreases |cs|
  {
    if cs != [] {
      var n := |cs| - 1;
      FallbackElements(cs[..n], profile);
      FallbackOneShape(cs[n], profile);
      forall m | m in Fallback(cs, profile) ensures exists i :: 0 <= i < |cs| && m.element == cs[i].element {
        if m in Fallback(cs[..n], profile) {
          var i :| 0 <= i < n && m.element == cs[..n][i].element;
          assert cs[..n][i] == cs[i];
        } else {
          assert m.element == cs[n].element;
        }
      }
    }
  }
}
