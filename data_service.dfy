/** The API's data service (`src/api/dataService.ts`): `getData` for one
    category, `getFieldsFreestyle` across all categories, `getHelpData`, and
    `getField`. Each loop builds the result under the tokens as written,
    counts every token once, and then fills `fieldTypes` in a second pass. */
module DataService {
  import opened Values
  import opened Desc
  import opened Catalog
  import opened FieldTally

  /** `DataResult`: the data (`null` for an unknown category) and the metadata. */
  datatype DataResult = DataResult(data: Option<map<string, Value>>, metadata: Metadata)

  /** `FieldResult` of `getField`. */
  datatype FieldResult = FieldResult(value: Value, kind: FieldType, message: Option<string>)

  /** `getData` with no fields: the whole category, every key counted valid. */
  function WholeCategory(p: Portfolio, category: string): (r: DataResult)
    ensures r.data == GetCategoryData(p, category)
    ensures r.data.Some? ==> r.data.value == p.normal[category] &&
                             r.metadata == Counts(|r.data.value.Keys|, |r.data.value.Keys|, 0, 0)
  {
    match GetCategoryData(p, category)
    case Some(d) => DataResult(Some(d), Counts(|d.Keys|, |d.Keys|, 0, 0))
    case None => DataResult(None, Counts(0, 0, 0, 0))
  }

  /** What `getHelpData` returns. With no fields: the whole help table, every
      key valid. With fields: each token normal exactly when it is a key of
      the help table; `hiddenFields` is the literal 0. */
  function HelpData(p: Portfolio, fields: seq<string>): (r: DataResult)
  {
    if fields == [] then
      var h := HelpTable(p.desc);
      DataResult(Some(h), Counts(|h.Keys|, |h.Keys|, 0, 0))
    else
      var t := TallyOf(p, HelpIndex, fields);
      DataResult(Some(t.data), Metadata(|fields|, t.valid, 0, t.invalid, Some(t.types), None, None))
  }

  /** What `getData` returns; it never sets a mode. */
  function Data(p: Portfolio, category: string, fields: seq<string>): (r: DataResult)
    ensures r.metadata.mode.None?
  {
    if category == "help" then HelpData(p, fields)
    else if fields == [] then WholeCategory(p, category)
    else
      var t := TallyOf(p, Scoped(category), fields);
      DataResult(Some(t.data), Metadata(|fields|, t.valid, t.hidden, t.invalid, Some(t.types), None, None))
  }

  /** What `getFieldsFreestyle` returns; its mode is `freestyle`. */
  function FieldsFreestyle(p: Portfolio, fields: seq<string>): (r: DataResult)
    ensures r.metadata.mode == Some("freestyle")
  {
    var t := TallyOf(p, Freestyle, fields);
    DataResult(Some(t.data), Metadata(|fields|, t.valid, t.hidden, t.invalid, Some(t.types), None, Some("freestyle")))
  }

  /** The lookup both loops of `getData` perform for one token: the `help`
      short-cut, otherwise alias resolution and `analyzeField`. */
  method LookupScoped(p: Portfolio, category: string, field: string) returns (l: Lookup)
    ensures l == Classify(p, Scoped(category), field)
  {
    if field == "help" {
      if category in p.desc.categories {
        return Lookup(CategoryDescValue(p.desc.categories[category]), NormalField, None);
      }
      return Lookup(Null, InvalidField, None);
    }
    var actualField := ResolveSimilarField(p.aliases, field);
    l := AnalyzeField(p, category, actualField);
  }

  /** The lookup of `getFieldsFreestyle` for one token: the `help` short-cut,
      otherwise alias resolution and `findFieldAnywhere`. */
  method LookupFreestyle(p: Portfolio, field: string) returns (l: Lookup)
    ensures l == Classify(p, Freestyle, field)
  {
    if field == "help" {
      return Lookup(FreestyleDescValue(p.desc.freestyle), NormalField, None);
    }
    var actualField := ResolveSimilarField(p.aliases, field);
    l := FindFieldAnywhere(p, ApiOrder, "extraData", actualField);
  }

  /** `getData`. An absent `fields` argument is the empty sequence. */
  method GetData(p: Portfolio, category: string, fields: seq<string>) returns (r: DataResult)
    ensures r == Data(p, category, fields)
  {
    if category == "help" {
      r := GetHelpData(p, fields);
      return;
    }
    if |fields| == 0 {
      var categoryData := GetCategoryData(p, category);
      var n := if categoryData.Some? then |categoryData.value.Keys| else 0;
      return DataResult(categoryData, Counts(n, n, 0, 0));
    }
    var mode := Scoped(category);
    var result: map<string, Value> := map[];
    var validFields, hiddenFields, invalidFields := 0, 0, 0;
    var i := 0;
    while i < |fields|
      invariant 0 <= i <= |fields|
      invariant var t := TallyOf(p, mode, fields[..i]);
        result == t.data && validFields == t.valid && hiddenFields == t.hidden && invalidFields == t.invalid
    {
      var field := fields[i];
      var fieldInfo := LookupScoped(p, category, field);
      TallyStep(p, mode, fields, i);
      result := result[field := fieldInfo.value];
      if fieldInfo.kind == NormalField {
        validFields := validFields + 1;
      } else if fieldInfo.kind == HiddenField {
        hiddenFields := hiddenFields + 1;
      } else {
        invalidFields := invalidFields + 1;
      }
      i := i + 1;
    }
    var fieldMetadata: map<string, FieldType> := map[];
    i := 0;
    while i < |fields|
      invariant 0 <= i <= |fields|
      invariant fieldMetadata == TallyOf(p, mode, fields[..i]).types
    {
      var field := fields[i];
      var fieldInfo := LookupScoped(p, category, field);
      TallyStep(p, mode, fields, i);
      fieldMetadata := fieldMetadata[field := fieldInfo.kind];
      i := i + 1;
    }
    assert fields[..|fields|] == fields;
    r := DataResult(Some(result), Metadata(|fields|, validFields, hiddenFields, invalidFields, Some(fieldMetadata), None, None));
  }

  /** `getFieldsFreestyle`. */
  method GetFieldsFreestyle(p: Portfolio, fields: seq<string>) returns (r: DataResult)
    ensures r == FieldsFreestyle(p, fields)
  {
    var result: map<string, Value> := map[];
    var validFields, hiddenFields, invalidFields := 0, 0, 0;
    var i := 0;
    while i < |fields|
      invariant 0 <= i <= |fields|
      invariant var t := TallyOf(p, Freestyle, fields[..i]);
        result == t.data && validFields == t.valid && hiddenFields == t.hidden && invalidFields == t.invalid
    {
      var field := fields[i];
      var fieldInfo := LookupFreestyle(p, field);
      TallyStep(p, Freestyle, fields, i);
      result := result[field := fieldInfo.value];
      if fieldInfo.kind == NormalField {
        validFields := validFields + 1;
      } else if fieldInfo.kind == HiddenField {
        hiddenFields := hiddenFields + 1;
      } else {
        invalidFields := invalidFields + 1;
      }
      i := i + 1;
    }
    var fieldMetadata: map<string, FieldType> := map[];
    i := 0;
    while i < |fields|
      invariant 0 <= i <= |fields|
      invariant fieldMetadata == TallyOf(p, Freestyle, fields[..i]).types
    {
      var field := fields[i];
      var fieldInfo := LookupFreestyle(p, field);
      TallyStep(p, Freestyle, fields, i);
      fieldMetadata := fieldMetadata[field := fieldInfo.kind];
      i := i + 1;
    }
    assert fields[..|fields|] == fields;
    r := DataResult(Some(result), Metadata(|fields|, validFields, hiddenFields, invalidFields,
                                           Some(fieldMetadata), None, Some("freestyle")));
  }

  /** `getHelpData`. */
  method GetHelpData(p: Portfolio, fields: seq<string>) returns (r: DataResult)
    ensures r == HelpData(p, fields)
  {
    var allHelpData := HelpTable(p.desc);
    if |fields| == 0 {
      return DataResult(Some(allHelpData), Counts(|allHelpData.Keys|, |allHelpData.Keys|, 0, 0));
    }
    var result: map<string, Value> := map[];
    var validFields, invalidFields := 0, 0;
    var i := 0;
    while i < |fields|
      invariant 0 <= i <= |fields|
      invariant result == TallyOf(p, HelpIndex, fields[..i]).data
      invariant validFields == TallyOf(p, HelpIndex, fields[..i]).valid
      invariant invalidFields == TallyOf(p, HelpIndex, fields[..i]).invalid
    {
      var field := fields[i];
      TallyStep(p, HelpIndex, fields, i);
      HelpClassify(p, field);
      if field in allHelpData {
        result := result[field := allHelpData[field]];
        validFields := validFields + 1;
      } else {
        result := result[field := Null];
        invalidFields := invalidFields + 1;
      }
      i := i + 1;
    }
    var fieldMetadata: map<string, FieldType> := map[];
    i := 0;
    while i < |fields|
      invariant 0 <= i <= |fields|
      invariant fieldMetadata == TallyOf(p, HelpIndex, fields[..i]).types
    {
      var field := fields[i];
      TallyStep(p, HelpIndex, fields, i);
      HelpClassify(p, field);
      fieldMetadata := fieldMetadata[field := if field in allHelpData then NormalField else InvalidField];
      i := i + 1;
    }
    assert fields[..|fields|] == fields;
    r := DataResult(Some(result), Metadata(|fields|, validFields, 0, invalidFields, Some(fieldMetadata), None, None));
  }

  /** The help index finds a token exactly when it is a key of the help table. */
  lemma HelpClassify(p: Portfolio, field: string)
    ensures var l := Classify(p, HelpIndex, field);
      l.source.None? &&
      (field in HelpTable(p.desc) ==> l.kind == NormalField && l.value == HelpTable(p.desc)[field]) &&
      (field !in HelpTable(p.desc) ==> l.kind == InvalidField && l.value == Null)
  {
  }

  /** `getField`: one field of one category, with a message when invalid. */
  function GetField(p: Portfolio, category: string, fieldPath: string): (r: FieldResult)
    ensures r.message.Some? <==> r.kind == InvalidField
    ensures r.kind == InvalidField ==> r.value == Null
  {
    var fieldInfo := AnalyzeField(p, category, Resolve(p.aliases, fieldPath));
    FieldResult(fieldInfo.value, fieldInfo.kind,
      if fieldInfo.kind == InvalidField
      then Some("Field '" + fieldPath + "' is not valid for category '" + category + "'")
      else None)
  }

  /** `getField` agrees with `getData` asked for that one field. */
  lemma GetFieldAgreesWithGetData(p: Portfolio, category: string, fieldPath: string)
    requires category != "help" && fieldPath != "help"
    ensures var d := Data(p, category, [fieldPath]);
      d.data.Some? && fieldPath in d.data.value && d.metadata.fieldTypes.Some? &&
      fieldPath in d.metadata.fieldTypes.value &&
      d.data.value[fieldPath] == GetField(p, category, fieldPath).value &&
      d.metadata.fieldTypes.value[fieldPath] == GetField(p, category, fieldPath).kind
  {
    assert [fieldPath][..0] == [];
  }

  /** In `getData` with fields and in freestyle, every token is counted
      once, duplicates separately: valid + hidden + invalid = total = the
      number of tokens. */
  lemma CountsAddUp(p: Portfolio, category: string, fields: seq<string>)
    requires category != "help" && fields != []
    ensures var m := Data(p, category, fields).metadata;
      m.totalFields == |fields| && m.validFields + m.hiddenFields + m.invalidFields == m.totalFields
    ensures var m := FieldsFreestyle(p, fields).metadata;
      m.totalFields == |fields| && m.validFields + m.hiddenFields + m.invalidFields == m.totalFields
  {
    TallyCounts(p, Scoped(category), fields);
    TallyCounts(p, Freestyle, fields);
  }

  /** `getHelpData` with fields counts only valid and invalid tokens, which
      add up to the total; its literal `hiddenFields: 0` is accurate. */
  lemma HelpCountsAddUp(p: Portfolio, fields: seq<string>)
    requires fields != []
    ensures var m := HelpData(p, fields).metadata;
      m.hiddenFields == 0 && m.validFields + m.invalidFields == m.totalFields == |fields|
    ensures forall k :: k in fields ==>
      k in HelpData(p, fields).metadata.fieldTypes.value &&
      HelpData(p, fields).metadata.fieldTypes.value[k] ==
        (if k in HelpTable(p.desc) then NormalField else InvalidField)
  {
    TallyCounts(p, HelpIndex, fields);
    HelpIndexNeverHidden(p, fields);
    TallyKeys(p, HelpIndex, fields);
    forall k | k in fields
      ensures k in TallyOf(p, HelpIndex, fields).types
      ensures TallyOf(p, HelpIndex, fields).types[k] == (if k in HelpTable(p.desc) then NormalField else InvalidField)
    {
      assert k in TokenSet(fields);
      TallyValues(p, HelpIndex, fields, k);
    }
  }

  /** The result and `fieldTypes` are keyed by the tokens as written, and each
      token's type is the one its lookup gave. */
  lemma KeyedByToken(p: Portfolio, category: string, fields: seq<string>, k: string)
    requires category != "help" && fields != [] && k in fields
    ensures var d := Data(p, category, fields);
      d.data.value.Keys == d.metadata.fieldTypes.value.Keys == TokenSet(fields) &&
      d.data.value[k] == Classify(p, Scoped(category), k).value &&
      d.metadata.fieldTypes.value[k] == Classify(p, Scoped(category), k).kind
  {
    TallyKeys(p, Scoped(category), fields);
    assert k in TokenSet(fields);
    TallyValues(p, Scoped(category), fields, k);
  }

  /** Asking a category for all its keys by name gives back its whole data,
      all valid, as long as no key is `help`, an alias of another field, or
      shadowed by the category's hidden overlay. */
  lemma AllKeysByName(p: Portfolio, category: string, fields: seq<string>)
    requires category != "help" && GetCategoryData(p, category).Some?
    requires fields != [] && TokenSet(fields) == GetCategoryData(p, category).value.Keys
    requires forall k :: k in fields ==> k != "help" && Unaliased(p.aliases, k) && !InHidden(p, category, k)
    ensures Data(p, category, fields).data == WholeCategory(p, category).data
    ensures Data(p, category, fields).metadata.validFields == |fields|
  {
    AllKeysData(p, category, fields);
    AllKeysValid(p, category, fields);
  }

  lemma AllKeysData(p: Portfolio, category: string, fields: seq<string>)
    requires category != "help" && GetCategoryData(p, category).Some?
    requires fields != [] && TokenSet(fields) == GetCategoryData(p, category).value.Keys
    requires forall k :: k in fields ==> k != "help" && Unaliased(p.aliases, k) && !InHidden(p, category, k)
    ensures Data(p, category, fields).data == Some(GetCategoryData(p, category).value)
  {
    var d := GetCategoryData(p, category).value;
    var t := TallyOf(p, Scoped(category), fields);
    TallyKeys(p, Scoped(category), fields);
    forall k | k in t.data ensures t.data[k] == d[k] {
      TallyValues(p, Scoped(category), fields, k);
      assert k in fields;
      KeyIsNormal(p, category, k);
    }
    assert t.data == d;
  }

  lemma AllKeysValid(p: Portfolio, category: string, fields: seq<string>)
    requires category != "help" && GetCategoryData(p, category).Some?
    requires fields != [] && TokenSet(fields) == GetCategoryData(p, category).value.Keys
    requires forall k :: k in fields ==> k != "help" && Unaliased(p.aliases, k) && !InHidden(p, category, k)
    ensures Data(p, category, fields).metadata.validFields == |fields|
  {
    forall k | k in fields ensures Classify(p, Scoped(category), k).kind == NormalField {
      assert k in TokenSet(fields);
      KeyIsNormal(p, category, k);
    }
    NormalCount(p, category, fields);
    TallyCounts(p, Scoped(category), fields);
  }

  /** A key of the category that is not `help`, not an alias and not hidden is read as normal data. */
  lemma KeyIsNormal(p: Portfolio, category: string, k: string)
    requires GetCategoryData(p, category).Some? && k in GetCategoryData(p, category).value
    requires k != "help" && Unaliased(p.aliases, k) && !InHidden(p, category, k)
    ensures Classify(p, Scoped(category), k) == Lookup(GetCategoryData(p, category).value[k], NormalField, None)
  {
    assert Resolve(p.aliases, k) == k;
  }

  lemma {:induction false} NormalCount(p: Portfolio, category: string, fields: seq<string>)
    requires forall k :: k in fields ==> Classify(p, Scoped(category), k).kind == NormalField
    ensures CountOf(p, Scoped(category), fields, NormalField) == |fields|
  {
    if fields != [] {
      var init := fields[..|fields| - 1];
      assert forall k :: k in init ==> k in fields;
      NormalCount(p, category, init);
      assert fields[|fields| - 1] in fields;
    }
  }
}
