/** The API entry point (`src/api/executor.ts`): `execute` rejects an empty
    query, strips the `query` keyword, answers a freestyle query
    `{ f1 f2 }` from every category, and otherwise finds the first
    `{ category { fields } }` form, checks the category against the fixed
    list and answers from that category. A successful answer is the data
    with the metadata added under `__metadata`; a failure is the `__error`
    object. The reading of the query (`Parse`) is kept apart from the
    answering (`Execute`). */
module ApiExecutor {
  import opened Text
  import opened Split
  import opened Values
  import opened FieldTally
  import opened DataService
  import opened QuerySyntax

  /** The categories `execute` accepts; `hidden` is not among them. */
  const ValidCategories: seq<string> := ["about", "education", "experience", "projects", "skills", "help"]

  /** The failures `execute` and `executeQuery` report. */
  datatype QueryError = EmptyQuery | InvalidFormat | CategoryRequired | InvalidCategory | NotAString

  /** The `message` of the `__error` object. */
  function Message(e: QueryError): (r: string)
  {
    match e
    case EmptyQuery => "Query cannot be empty"
    case InvalidFormat => "Invalid query format. Use: { category { field1 field2 } } or { field1 field2 field3 }"
    case CategoryRequired => "Category is required"
    case InvalidCategory => "Invalid category. Must be one of: " + Join(ValidCategories, ", ")
    case NotAString => "Invalid query: Query must be a non-empty string"
  }

  datatype QueryResult =
    | Answer(fields: map<string, Value>, metadata: Metadata)
    | Failure(error: QueryError)

  /** How `execute` reads a query before asking the data service. */
  datatype Parsed =
    | Refused(error: QueryError)
    | FreestyleQuery(fields: seq<string>)
    | CategoryQuery(category: string, fields: seq<string>)

  /** The checks of `execute`, in its order. */
  function Parse(query: string): (r: Parsed)
    ensures r == Refused(EmptyQuery) <==> Trim(query) == []
  {
    if Trim(query) == [] then Refused(EmptyQuery) else ParseClean(Clean(query))
  }

  /** The checks after the keyword is stripped: the freestyle form, then the
      category form, then the category list. */
  function ParseClean(q: string): (r: Parsed)
    ensures r != Refused(EmptyQuery) && r != Refused(CategoryRequired)
    ensures r.FreestyleQuery? <==> FreestyleShape(q)
    ensures r.FreestyleQuery? ==> FreestyleFields(q) == Some(r.fields)
    ensures r.CategoryQuery? ==> r.category in ValidCategories
  {
    match FreestyleFields(q)
    case Some(fields) => FreestyleQuery(fields)
    case None =>
      match FindCategoryMatch(q)
      case None => Refused(InvalidFormat)
      case Some(m) =>
        if m.category == [] then Refused(CategoryRequired)
        else
          var fields := Words(Trim(m.body));
          if m.category !in ValidCategories then Refused(InvalidCategory)
          else CategoryQuery(m.category, fields)
  }

  /** `{ ...result.data, __metadata: result.metadata }`: the data (nothing
      when it is `null`) with `__metadata` taken by the metadata. */
  function Spread(d: DataResult): (r: QueryResult)
    ensures r.Answer? && "__metadata" !in r.fields && r.metadata == d.metadata
    ensures d.data.Some? ==> r.fields.Keys == d.data.value.Keys - {"__metadata"}
    ensures d.data.Some? ==> forall k :: k in r.fields ==> r.fields[k] == d.data.value[k]
    ensures d.data.None? ==> r.fields == map[]
  {
    Answer(if d.data.Some? then d.data.value - {"__metadata"} else map[], d.metadata)
  }

  /** `execute`. */
  function Execute(p: Catalog.Portfolio, query: string): (r: QueryResult)
    ensures r.Failure? <==> Parse(query).Refused?
    ensures r.Failure? ==> r.error == Parse(query).error
  {
    match Parse(query)
    case Refused(e) => Failure(e)
    case FreestyleQuery(fields) => Spread(FieldsFreestyle(p, fields))
    case CategoryQuery(category, fields) => Spread(Data(p, category, fields))
  }

  /** `executeQuery`: `None` stands for an argument that is not a string. */
  function ExecuteQuery(p: Catalog.Portfolio, query: Option<string>): (r: QueryResult)
    ensures query.None? || query.value == [] ==> r == Failure(NotAString)
    ensures query.Some? && query.value != [] ==> r == Execute(p, query.value)
  {
    if query.None? || query.value == [] then Failure(NotAString) else Execute(p, query.value)
  }

  /** A query is refused as empty exactly when it is white space only. */
  lemma {:induction false} EmptyIff(query: string)
    ensures Parse(query) == Refused(EmptyQuery) <==> AllSpace(query)
  {
    TrimEmptyIff(query);
  }

  /** The category pattern needs at least one word character, so the
      `Category is required` branch is never taken. */
  lemma {:induction false} NeverCategoryRequired(query: string)
    ensures Parse(query) != Refused(CategoryRequired)
  {
    if Trim(query) != [] {
      assert Parse(query) == ParseClean(Clean(query));
    }
  }

  /** A white-space-only query is neither freestyle nor category-shaped. */
  lemma {:induction false} AllSpaceNotFreestyle(query: string)
    requires AllSpace(query)
    ensures !IsFreestyleQuery(query)
  {
    if query != [] {
      assert IsSpace(query[0]);
    }
    assert !StartsWith(query, "query") by {
      if |query| >= 5 {
        assert query[..5][0] == query[0];
      }
    }
    TrimAllSpace(query);
  }

  /** A query is read as freestyle exactly when the statistics composable
      classifies it as freestyle; the fields are the words between the
      braces. */
  lemma {:induction false} FreestyleIff(query: string)
    ensures Parse(query).FreestyleQuery? <==> IsFreestyleQuery(query)
    ensures IsFreestyleQuery(query) ==>
              var q := Clean(query); Parse(query) == FreestyleQuery(Words(Interior(q)))
  {
    if AllSpace(query) {
      BlankNotFreestyle(query);
    } else {
      FreestyleText(query);
      if IsFreestyleQuery(query) {
        assert Trim(query) != [] by {
          TrimEmptyIff(query);
        }
        FreestyleTextFields(query);
      }
    }
  }

  lemma {:induction false} BlankNotFreestyle(query: string)
    requires AllSpace(query)
    ensures !Parse(query).FreestyleQuery? && !IsFreestyleQuery(query)
  {
    TrimEmptyIff(query);
    AllSpaceNotFreestyle(query);
  }

  lemma {:induction false} FreestyleText(query: string)
    requires !AllSpace(query)
    ensures Parse(query).FreestyleQuery? <==> IsFreestyleQuery(query)
  {
    var q := Clean(query);
    assert Parse(query) == ParseClean(q) by {
      TrimEmptyIff(query);
      ParseNonEmpty(query);
    }
    FreestyleClean(q);
  }

  lemma {:induction false} FreestyleTextFields(query: string)
    requires Trim(query) != [] && IsFreestyleQuery(query)
    ensures var q := Clean(query); Parse(query) == FreestyleQuery(Words(Interior(q)))
  {
    var q := Clean(query);
    assert FreestyleShape(q);
    var fields := Words(Interior(q));
    assert Parse(query) == ParseClean(q) by {
      ParseNonEmpty(query);
    }
    assert ParseClean(q) == FreestyleQuery(fields) by {
      FreestyleClean(q);
    }
  }

  lemma {:induction false} ParseNonEmpty(query: string)
    requires Trim(query) != []
    ensures Parse(query) == ParseClean(Clean(query))
  {
  }

  lemma {:induction false} FreestyleClean(q: string)
    ensures ParseClean(q).FreestyleQuery? <==> FreestyleShape(q)
    ensures FreestyleShape(q) ==> ParseClean(q) == FreestyleQuery(Words(Interior(q)))
  {
    if FreestyleShape(q) {
      FreestyleFieldsAreWords(q);
    }
  }

  /** Answers come in freestyle mode exactly for freestyle queries: the data
      service's category answers carry no mode. */
  lemma {:induction false} FreestyleModeIff(p: Catalog.Portfolio, query: string)
    ensures (Execute(p, query).Answer? && Execute(p, query).metadata.mode == Some("freestyle"))
            <==> IsFreestyleQuery(query)
  {
    FreestyleIff(query);
    match Parse(query)
    case Refused(e) =>
    case FreestyleQuery(fields) =>
    case CategoryQuery(category, fields) =>
  }

  /** Any other non-empty query is read from the first category form it
      contains: its category when that is one of the valid ones, with the
      words of its body as the fields; an unknown category (`hidden`
      included) is refused. */
  lemma {:induction false} CategoryParse(query: string, m: CategoryMatch)
    requires !AllSpace(query) && !IsFreestyleQuery(query)
    requires FindCategoryMatch(Clean(query)) == Some(m)
    ensures m.category in ValidCategories ==> Parse(query) == CategoryQuery(m.category, Words(m.body))
    ensures m.category !in ValidCategories ==> Parse(query) == Refused(InvalidCategory)
  {
    TrimEmptyIff(query);
    WordsTrim(m.body);
  }

  /** A non-empty query with neither form is refused with the format message. */
  lemma {:induction false} NoFormRefused(query: string)
    requires !AllSpace(query) && !IsFreestyleQuery(query)
    requires forall i :: 0 <= i < |Clean(query)| ==> CategoryMatchAt(Clean(query), i).None?
    ensures Parse(query) == Refused(InvalidFormat)
  {
    var q := Clean(query);
    assert Parse(query) == ParseClean(q) by {
      TrimEmptyIff(query);
      ParseNonEmpty(query);
    }
    assert FindCategoryMatch(q).None?;
    NoFormClean(q);
  }

  lemma NoFormClean(q: string)
    requires !FreestyleShape(q) && FindCategoryMatch(q).None?
    ensures ParseClean(q) == Refused(InvalidFormat)
  {
  }
}
