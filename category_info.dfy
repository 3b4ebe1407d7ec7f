/** The category browser's view of the description tables
    (`src/composables/useCategoryInfo.ts`): one record per real category,
    the freestyle record listing every field that can be picked, and the
    example queries shown beside them, which the API's parser reads back as
    exactly the fields they list. */
module CategoryInfo {
  import opened Text
  import opened Values
  import opened Split
  import opened Desc
  import opened QuerySyntax
  import ApiExecutor

  /** The categories the browser offers: every data category but `hidden`
      and `help`. */
  const RealCategories: seq<string> := ["about", "education", "experience", "projects", "skills"]

  /** The group of `fieldDesc` listed after the real categories in freestyle mode. */
  const ExtraCategory: string := "extra"

  datatype CategoryInfo = CategoryInfo(
    name: string,
    displayName: string,
    description: string,
    hints: string,
    allFields: seq<string>,
    defaultFields: seq<string>,
    exampleQuery: string,
    fieldDescriptions: map<string, string>)

  /** An element of `allAvailableFields`. */
  datatype AvailableField = AvailableField(name: string, description: string, category: string, isDefault: bool)

  datatype FreestyleInfo = FreestyleInfo(
    displayName: string,
    description: string,
    hints: string,
    defaultFields: seq<string>,
    exampleQuery: string,
    allAvailableFields: seq<AvailableField>)

  // ---------------------------------------------------------------------
  // Example queries

  function Braced(inner: string): (r: string)
  {
    "{" + inner + "}"
  }

  /** The template `query {\n  <category> {\n    <fields, one per line>\n  }\n}`. */
  function CategoryExample(category: string, fields: seq<string>): (r: string)
  {
    "query " + Braced("\n  " + category + " " + Braced("\n    " + Join(fields, "\n    ") + "\n  ") + "\n")
  }

  /** The template `query {\n  <fields, one per line>\n}`. */
  function FreestyleExample(fields: seq<string>): (r: string)
  {
    "query " + Braced("\n  " + Join(fields, "\n  ") + "\n")
  }

  /** `defaultFields[category] || []`. */
  function DefaultFieldsOf(d: Descriptions, category: string): (r: seq<string>)
  {
    if category in d.defaults then d.defaults[category] else []
  }

  /** `generateExampleQuery`: the selection, or the category's defaults when
      nothing is selected, in the category template. */
  function GenerateExampleQuery(d: Descriptions, categoryName: string, selectedFields: seq<string>): (r: string)
  {
    CategoryExample(categoryName, if |selectedFields| > 0 then selectedFields else DefaultFieldsOf(d, categoryName))
  }

  /** `generateFreestyleQuery`: the selection, or the freestyle defaults when
      nothing is selected, in the freestyle template. */
  function GenerateFreestyleQuery(d: Descriptions, selectedFields: seq<string>): (r: string)
  {
    if |selectedFields| == 0 then FreestyleExample(d.freestyleDefaults)
    else FreestyleExample(selectedFields)
  }

  /** A field name the parser reads back as written: not empty, without
      white space and without braces. Every name in the tables is one. */
  predicate PlainName(s: string)
  {
    s != [] && NoSpace(s) && BraceFree(s)
  }

  predicate PlainNames(fields: seq<string>)
  {
    forall i :: 0 <= i < |fields| ==> PlainName(fields[i])
  }

  /** The keyword and the single space after it are what `Clean` strips. */
  lemma KeywordStripped(body: string)
    requires body != [] && Trimmed(body)
    ensures Clean("query " + body) == body
  {
    var q := "query " + body;
    assert q[..5] == "query";
    assert q[5..] == " " + body;
    LeadingSpaceOf(" ", body);
    TrimOfTrimmed(body);
  }

  /** The indents of the templates are white space. */
  lemma Indents()
    ensures AllSpace("\n") && AllSpace("\n  ") && AllSpace("\n    ")
  {
  }

  /** Lines of names, indented by `sep`'s white space, read back as the names. */
  lemma {:induction false} IndentedWords(fields: seq<string>, sep: string, tail: string)
    requires sep != [] && AllSpace(sep) && AllSpace(tail) && PlainNames(fields)
    ensures Words(sep + Join(fields, sep) + tail) == fields
  {
    var joined := Join(fields, sep);
    assert sep + joined + tail == sep + (joined + tail);
    WordsSpacePrefix(sep, joined + tail);
    WordsSpaceSuffix(joined, tail);
    WordsJoin(fields, sep);
  }

  /** `query {<inner>}` with a brace-free interior: freestyle, and the
      interior is what lies between the braces once the keyword is gone. */
  lemma FreestyleForm(inner: string)
    requires inner != [] && BraceFree(inner)
    ensures var q := "query " + Braced(inner);
      IsFreestyleQuery(q) && Interior(Clean(q)) == inner
  {
    KeywordStripped(Braced(inner));
    assert Interior(Braced(inner)) == inner;
  }

  /** What the API reads from a freestyle query, in terms of its interior. */
  lemma FreestyleRead(q: string, inner: string)
    requires IsFreestyleQuery(q) && Interior(Clean(q)) == inner
    ensures ApiExecutor.Parse(q) == ApiExecutor.FreestyleQuery(Words(inner))
  {
    ApiExecutor.FreestyleIff(q);
  }

  /** A freestyle example is classified as freestyle by the statistics and
      read back by the API as exactly the fields it lists. */
  lemma {:induction false} FreestyleExampleParses(fields: seq<string>)
    requires PlainNames(fields)
    ensures IsFreestyleQuery(FreestyleExample(fields))
    ensures ApiExecutor.Parse(FreestyleExample(fields)) == ApiExecutor.FreestyleQuery(fields)
  {
    var joined := Join(fields, "\n  ");
    var inner := "\n  " + joined + "\n";
    assert BraceFree(inner) by {
      JoinAvoids(fields, "\n  ", '{');
      JoinAvoids(fields, "\n  ", '}');
    }
    FreestyleForm(inner);
    FreestyleRead(FreestyleExample(fields), inner);
    Indents();
    IndentedWords(fields, "\n  ", "\n");
  }

  /** The body of a category example once the keyword is stripped. */
  function CategoryBody(category: string, list: string): (r: string)
  {
    Braced("\n  " + category + " " + Braced(list) + "\n")
  }

  /** `query {<category> {<list>}}` is not freestyle: its interior holds a brace. */
  lemma CategoryFormClean(category: string, list: string)
    ensures Clean("query " + CategoryBody(category, list)) == CategoryBody(category, list)
    ensures !FreestyleShape(CategoryBody(category, list))
  {
    var head := "\n  " + category + " ";
    var inner := head + Braced(list) + "\n";
    KeywordStripped(Braced(inner));
    assert Interior(Braced(inner)) == inner;
    assert inner[|head|] == '{';
  }

  /** The category pattern matches the body at its first brace. */
  lemma CategoryFormMatch(category: string, list: string)
    requires category != [] && AllWordChars(category) && '}' !in list
    ensures FindCategoryMatch(CategoryBody(category, list)) == Some(CategoryMatch(category, list))
  {
    var body := CategoryBody(category, list);
    var form := "{" + "\n  " + category + " " + "{" + list + "}";
    assert body == form + "\n}";
    assert StartsWith(body[0..], form);
    CategoryMatchComplete(body, 0, "\n  ", category, " ", list);
  }

  /** What the API reads from a query whose cleaned text holds a category form. */
  lemma CategoryRead(q: string, body: string, m: CategoryMatch)
    requires q != [] && !IsSpace(q[0]) && Clean(q) == body && !FreestyleShape(body)
    requires FindCategoryMatch(body) == Some(m)
    ensures m.category in ApiExecutor.ValidCategories ==>
              ApiExecutor.Parse(q) == ApiExecutor.CategoryQuery(m.category, Words(m.body))
    ensures m.category !in ApiExecutor.ValidCategories ==>
              ApiExecutor.Parse(q) == ApiExecutor.Refused(ApiExecutor.InvalidCategory)
  {
    ApiExecutor.CategoryParse(q, m);
  }

  /** A category example is not freestyle; the API reads it back as the
      category and exactly the fields it lists, or refuses a category it
      does not serve. */
  lemma {:induction false} CategoryExampleParses(category: string, fields: seq<string>)
    requires category != [] && AllWordChars(category) && PlainNames(fields)
    ensures !IsFreestyleQuery(CategoryExample(category, fields))
    ensures category in ApiExecutor.ValidCategories ==>
              ApiExecutor.Parse(CategoryExample(category, fields)) == ApiExecutor.CategoryQuery(category, fields)
    ensures category !in ApiExecutor.ValidCategories ==>
              ApiExecutor.Parse(CategoryExample(category, fields)) == ApiExecutor.Refused(ApiExecutor.InvalidCategory)
  {
    var list := "\n    " + Join(fields, "\n    ") + "\n  ";
    assert CategoryExample(category, fields) == "query " + CategoryBody(category, list);
    assert '}' !in list by {
      JoinAvoids(fields, "\n    ", '}');
    }
    CategoryFormRead(category, list);
    Indents();
    IndentedWords(fields, "\n    ", "\n  ");
  }

  /** What the API reads from `query {<category> {<list>}}`. */
  lemma CategoryFormRead(category: string, list: string)
    requires category != [] && AllWordChars(category) && '}' !in list
    ensures var q := "query " + CategoryBody(category, list);
      !IsFreestyleQuery(q) &&
      (category in ApiExecutor.ValidCategories ==>
         ApiExecutor.Parse(q) == ApiExecutor.CategoryQuery(category, Words(list))) &&
      (category !in ApiExecutor.ValidCategories ==>
         ApiExecutor.Parse(q) == ApiExecutor.Refused(ApiExecutor.InvalidCategory))
  {
    CategoryFormClean(category, list);
    CategoryFormParse(category, list);
  }

  lemma CategoryFormParse(category: string, list: string)
    requires category != [] && AllWordChars(category) && '}' !in list
    ensures var q := "query " + CategoryBody(category, list);
      (category in ApiExecutor.ValidCategories ==>
         ApiExecutor.Parse(q) == ApiExecutor.CategoryQuery(category, Words(list))) &&
      (category !in ApiExecutor.ValidCategories ==>
         ApiExecutor.Parse(q) == ApiExecutor.Refused(ApiExecutor.InvalidCategory))
  {
    var body := CategoryBody(category, list);
    var q := "query " + body;
    assert q != [] && !IsSpace(q[0]) by {
      assert q[0] == 'q';
    }
    CategoryFormClean(category, list);
    var m := CategoryMatch(category, list);
    CategoryFormMatch(category, list);
    CategoryRead(q, body, m);
  }

  /** `generateFreestyleQuery` round-trips through the API: the query it
      writes is read as freestyle with the selection, or with the freestyle
      defaults when nothing is selected. */
  lemma GenerateFreestyleQueryParses(d: Descriptions, selectedFields: seq<string>)
    requires PlainNames(selectedFields) && PlainNames(d.freestyleDefaults)
    ensures var q := GenerateFreestyleQuery(d, selectedFields);
      IsFreestyleQuery(q) &&
      ApiExecutor.Parse(q) ==
        ApiExecutor.FreestyleQuery(if |selectedFields| == 0 then d.freestyleDefaults else selectedFields)
  {
    FreestyleExampleParses(if |selectedFields| == 0 then d.freestyleDefaults else selectedFields);
  }

  /** `generateExampleQuery` round-trips through the API for every real
      category: the query it writes is read as that category with the
      selection, or with the category's defaults when nothing is selected. */
  lemma GenerateExampleQueryParses(d: Descriptions, categoryName: string, selectedFields: seq<string>)
    requires categoryName in RealCategories
    requires PlainNames(selectedFields) && PlainNames(DefaultFieldsOf(d, categoryName))
    ensures var q := GenerateExampleQuery(d, categoryName, selectedFields);
      !IsFreestyleQuery(q) &&
      ApiExecutor.Parse(q) ==
        ApiExecutor.CategoryQuery(categoryName,
          if |selectedFields| > 0 then selectedFields else DefaultFieldsOf(d, categoryName))
  {
    RealCategoryServed(categoryName);
    CategoryExampleParses(categoryName, if |selectedFields| > 0 then selectedFields else DefaultFieldsOf(d, categoryName));
  }

  /** Every real category is a word the API serves. */
  lemma RealCategoryServed(category: string)
    requires category in RealCategories
    ensures category != [] && AllWordChars(category) && category in ApiExecutor.ValidCategories
  {
  }

  // ---------------------------------------------------------------------
  // Category records

  /** `categoryDesc[category]?.description || ''`. */
  function DescriptionOf(d: Descriptions, category: string): (r: string)
  {
    if category in d.categories then d.categories[category].description else ""
  }

  /** `categoryDesc[category]?.hints || ''`. */
  function HintsOf(d: Descriptions, category: string): (r: string)
  {
    if category in d.categories then d.categories[category].hints else ""
  }

  /** `info` is the record the browser builds for `info.name`. */
  ghost predicate Describes(d: Descriptions, info: CategoryInfo)
  {
    info.displayName == Capitalize(info.name) &&
    info.description == DescriptionOf(d, info.name) &&
    info.hints == HintsOf(d, info.name) &&
    info.allFields == GetCategoryFields(d.fieldDesc, info.name) &&
    info.defaultFields == DefaultFieldsOf(d, info.name) &&
    info.exampleQuery == GenerateExampleQuery(d, info.name, []) &&
    (forall f :: f in info.fieldDescriptions <==> f in info.allFields) &&
    (forall f :: f in info.fieldDescriptions ==>
       info.fieldDescriptions[f] == GetFieldDescription(d.fieldDesc, info.name, f))
  }

  /** The `forEach` that fills `fieldDescriptions`: one entry per field of
      the category, holding its description. */
  method FieldDescriptions(d: Descriptions, categoryName: string, allFields: seq<string>)
    returns (fieldDescriptions: map<string, string>)
    ensures forall f :: f in fieldDescriptions <==> f in allFields
    ensures forall f :: f in fieldDescriptions ==>
              fieldDescriptions[f] == GetFieldDescription(d.fieldDesc, categoryName, f)
  {
    fieldDescriptions := map[];
    for i := 0 to |allFields|
      invariant forall f :: f in fieldDescriptions <==> f in allFields[..i]
      invariant forall f :: f in fieldDescriptions ==>
                  fieldDescriptions[f] == GetFieldDescription(d.fieldDesc, categoryName, f)
    {
      assert allFields[..i + 1] == allFields[..i] + [allFields[i]];
      fieldDescriptions := fieldDescriptions[allFields[i] := GetFieldDescription(d.fieldDesc, categoryName, allFields[i])];
    }
    assert allFields[..|allFields|] == allFields;
  }

  /** The record `categories` builds for one category; its inline example
      query is the one `generateExampleQuery` writes with nothing selected. */
  method CategoryInfoOf(d: Descriptions, categoryName: string) returns (info: CategoryInfo)
    ensures info.name == categoryName && Describes(d, info)
  {
    var allFields := GetCategoryFields(d.fieldDesc, categoryName);
    var categoryDefaultFields := DefaultFieldsOf(d, categoryName);
    var fieldDescriptions := FieldDescriptions(d, categoryName, allFields);
    info := CategoryInfo(
      categoryName,
      Capitalize(categoryName),
      DescriptionOf(d, categoryName),
      HintsOf(d, categoryName),
      allFields,
      categoryDefaultFields,
      CategoryExample(categoryName, categoryDefaultFields),
      fieldDescriptions);
  }

  /** `categories`: one record per real category, in order. */
  method Categories(d: Descriptions) returns (infos: seq<CategoryInfo>)
    ensures |infos| == |RealCategories|
    ensures forall i :: 0 <= i < |infos| ==> infos[i].name == RealCategories[i] && Describes(d, infos[i])
  {
    infos := [];
    for k := 0 to |RealCategories|
      invariant |infos| == k
      invariant forall i :: 0 <= i < k ==> infos[i].name == RealCategories[i] && Describes(d, infos[i])
    {
      var info := CategoryInfoOf(d, RealCategories[k]);
      infos := infos + [info];
    }
  }

  /** A category record lists each field with a non-empty description, and
      its example query reads back as its category and default fields. */
  lemma CategoryRecordSound(d: Descriptions, info: CategoryInfo)
    requires Describes(d, info) && info.name in RealCategories && PlainNames(info.defaultFields)
    ensures forall f :: f in info.fieldDescriptions ==> info.fieldDescriptions[f] != []
    ensures !IsFreestyleQuery(info.exampleQuery)
    ensures ApiExecutor.Parse(info.exampleQuery) == ApiExecutor.CategoryQuery(info.name, info.defaultFields)
  {
    GenerateExampleQueryParses(d, info.name, []);
  }

  // ---------------------------------------------------------------------
  // The freestyle record

  /** The entries pushed for one real category: its fields in order, each
      with its description and whether the freestyle defaults include it. */
  function CategoryAvailable(d: Descriptions, category: string): (r: seq<AvailableField>)
    ensures |r| == |GetCategoryFields(d.fieldDesc, category)|
  {
    var names := GetCategoryFields(d.fieldDesc, category);
    seq(|names|, i requires 0 <= i < |names| =>
      AvailableField(names[i], GetFieldDescription(d.fieldDesc, category, names[i]), category,
                     names[i] in d.freestyleDefaults))
  }

  /** `fieldDesc.extra || {}`: the extra group's entries, in order. */
  function ExtraEntries(d: Descriptions): (r: seq<FieldEntry>)
  {
    match GroupOf(d.fieldDesc, ExtraCategory)
    case Some(g) => g.fields
    case None => []
  }

  /** The entries pushed for the extra group: its stored descriptions as they are. */
  function ExtraAvailable(d: Descriptions): (r: seq<AvailableField>)
    ensures |r| == |ExtraEntries(d)|
  {
    var entries := ExtraEntries(d);
    seq(|entries|, i requires 0 <= i < |entries| =>
      AvailableField(entries[i].name, entries[i].description, ExtraCategory,
                     entries[i].name in d.freestyleDefaults))
  }

  /** The entries pushed for `categories`, one category after the other. */
  function AvailableFrom(d: Descriptions, categories: seq<string>): (r: seq<AvailableField>)
  {
    if categories == [] then []
    else AvailableFrom(d, categories[..|categories| - 1]) + CategoryAvailable(d, categories[|categories| - 1])
  }

  /** `allAvailableFields`: the real categories' fields, then the extra ones. */
  function AllAvailable(d: Descriptions): (r: seq<AvailableField>)
  {
    AvailableFrom(d, RealCategories) + ExtraAvailable(d)
  }

  /** The inner `forEach` for one real category. */
  method PushCategory(d: Descriptions, categoryName: string, allAvailableFields: seq<AvailableField>)
    returns (r: seq<AvailableField>)
    ensures r == allAvailableFields + CategoryAvailable(d, categoryName)
  {
    var categoryFields := GetCategoryFields(d.fieldDesc, categoryName);
    r := allAvailableFields;
    for j := 0 to |categoryFields|
      invariant r == allAvailableFields + CategoryAvailable(d, categoryName)[..j]
    {
      var fieldName := categoryFields[j];
      r := r + [AvailableField(
        fieldName,
        GetFieldDescription(d.fieldDesc, categoryName, fieldName),
        categoryName,
        fieldName in d.freestyleDefaults)];
      assert CategoryAvailable(d, categoryName)[..j + 1] ==
             CategoryAvailable(d, categoryName)[..j] + [CategoryAvailable(d, categoryName)[j]];
    }
    assert CategoryAvailable(d, categoryName)[..|categoryFields|] == CategoryAvailable(d, categoryName);
  }

  /** The `forEach` over the extra group's entries. */
  method PushExtra(d: Descriptions, allAvailableFields: seq<AvailableField>) returns (r: seq<AvailableField>)
    ensures r == allAvailableFields + ExtraAvailable(d)
  {
    var extraFields := ExtraEntries(d);
    r := allAvailableFields;
    for j := 0 to |extraFields|
      invariant r == allAvailableFields + ExtraAvailable(d)[..j]
    {
      r := r + [AvailableField(
        extraFields[j].name,
        extraFields[j].description,
        ExtraCategory,
        extraFields[j].name in d.freestyleDefaults)];
      assert ExtraAvailable(d)[..j + 1] == ExtraAvailable(d)[..j] + [ExtraAvailable(d)[j]];
    }
    assert ExtraAvailable(d)[..|extraFields|] == ExtraAvailable(d);
  }

  /** `freestyleInfo`: the loops push every field of the real categories,
      then the extra group's entries. */
  method FreestyleInfoOf(d: Descriptions) returns (info: FreestyleInfo)
    ensures info.displayName == "Freestyle"
    ensures info.description == d.freestyle.description && info.hints == d.freestyle.hints
    ensures info.defaultFields == d.freestyleDefaults
    ensures info.exampleQuery == GenerateFreestyleQuery(d, [])
    ensures info.allAvailableFields == AllAvailable(d)
  {
    var allAvailableFields: seq<AvailableField> := [];
    for k := 0 to |RealCategories|
      invariant allAvailableFields == AvailableFrom(d, RealCategories[..k])
    {
      allAvailableFields := PushCategory(d, RealCategories[k], allAvailableFields);
      assert RealCategories[..k + 1][..k] == RealCategories[..k];
    }
    assert RealCategories[..|RealCategories|] == RealCategories;
    allAvailableFields := PushExtra(d, allAvailableFields);
    info := FreestyleInfo(
      "Freestyle",
      d.freestyle.description,
      d.freestyle.hints,
      d.freestyleDefaults,
      FreestyleExample(d.freestyleDefaults),
      allAvailableFields);
  }

  /** How a real category's field is listed. */
  predicate ListedRegular(d: Descriptions, x: AvailableField)
  {
    x.category in RealCategories &&
    x.name in GetCategoryFields(d.fieldDesc, x.category) &&
    x.description == GetFieldDescription(d.fieldDesc, x.category, x.name)
  }

  /** How an extra field is listed. */
  predicate ListedExtra(d: Descriptions, x: AvailableField)
  {
    x.category == ExtraCategory && FieldEntry(x.name, x.description) in ExtraEntries(d)
  }

  /** The freestyle listing holds exactly the real categories' fields with
      their descriptions and the extra group's entries, each marked default
      exactly when the freestyle defaults name it. */
  lemma AvailableFieldIff(d: Descriptions, x: AvailableField)
    ensures x in AllAvailable(d) <==>
              (ListedRegular(d, x) || ListedExtra(d, x)) && x.isDefault == (x.name in d.freestyleDefaults)
  {
    AvailableFromIff(d, RealCategories, x);
    CategoryAvailableIff(d, x.category, x);
    ExtraAvailableIff(d, x);
    assert ExtraCategory !in RealCategories;
  }

  lemma {:induction false} AvailableFromIff(d: Descriptions, categories: seq<string>, x: AvailableField)
    ensures x in AvailableFrom(d, categories) <==> x.category in categories && x in CategoryAvailable(d, x.category)
    decreases |categories|
  {
    if categories != [] {
      var init, last := categories[..|categories| - 1], categories[|categories| - 1];
      assert categories == init + [last];
      AvailableFromIff(d, init, x);
      CategoryAvailableIff(d, last, x);
    }
  }

  lemma CategoryAvailableIff(d: Descriptions, category: string, x: AvailableField)
    ensures x in CategoryAvailable(d, category) <==>
              x.category == category && x.name in GetCategoryFields(d.fieldDesc, category) &&
              x.description == GetFieldDescription(d.fieldDesc, category, x.name) &&
              x.isDefault == (x.name in d.freestyleDefaults)
  {
    var names := GetCategoryFields(d.fieldDesc, category);
    if x.category == category && x.name in names && x.description == GetFieldDescription(d.fieldDesc, category, x.name) &&
       x.isDefault == (x.name in d.freestyleDefaults) {
      var i :| 0 <= i < |names| && names[i] == x.name;
      assert CategoryAvailable(d, category)[i] == x;
    }
  }

  lemma ExtraAvailableIff(d: Descriptions, x: AvailableField)
    ensures x in ExtraAvailable(d) <==> ListedExtra(d, x) && x.isDefault == (x.name in d.freestyleDefaults)
  {
    var entries := ExtraEntries(d);
    if ListedExtra(d, x) && x.isDefault == (x.name in d.freestyleDefaults) {
      var i :| 0 <= i < |entries| && entries[i] == FieldEntry(x.name, x.description);
      assert ExtraAvailable(d)[i] == x;
    }
  }

  /** The freestyle record's example query reads back as the freestyle defaults. */
  lemma FreestyleRecordExample(d: Descriptions, info: FreestyleInfo)
    requires info.defaultFields == d.freestyleDefaults && info.exampleQuery == GenerateFreestyleQuery(d, [])
    requires PlainNames(d.freestyleDefaults)
    ensures IsFreestyleQuery(info.exampleQuery)
    ensures ApiExecutor.Parse(info.exampleQuery) == ApiExecutor.FreestyleQuery(info.defaultFields)
  {
    GenerateFreestyleQueryParses(d, []);
  }
}
