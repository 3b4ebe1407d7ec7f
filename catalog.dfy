/** The portfolio catalog and the lookups both query surfaces share:
    alias resolution (`resolveSimilarField`), the category-scoped lookup
    (`analyzeField`), the global lookup (`findFieldAnywhere`, with the
    category order as a parameter) and `getCategoryData`. The data service
    (`src/api/dataService.ts`) and the terminal data manager
    (`src/terminal/dataManager.ts`) each hold a copy of these; the copies
    differ only in the category order and the tag of the extra data, which
    are the parameters `order` and `extraTag` here. */
module Catalog {
  import opened Text
  import opened Values
  import opened Desc

  /** `'normal' | 'hidden' | 'invalid'`. */
  datatype FieldType = NormalField | HiddenField | InvalidField

  /** What a lookup reports: the value, its type and where it was found. */
  datatype Lookup = Lookup(value: Value, kind: FieldType, source: Option<string>)

  /** One entry of the alias table: a canonical field name and the names
      that stand for it. */
  datatype Alias = Alias(canonical: string, names: seq<string>)

  /** `portfolioData`: the normal data of each category, the hidden overlay of
      each category, the extra data, the alias table in declaration order,
      and the description tables. */
  datatype Portfolio = Portfolio(
    normal: map<string, map<string, Value>>,
    hidden: map<string, map<string, Value>>,
    extra: map<string, Value>,
    aliases: seq<Alias>,
    desc: Descriptions)

  /** The category order of the global lookup in the data service. */
  const ApiOrder: seq<string> := ["about", "experience", "skills", "education", "projects"]

  /** The category order of the terminal (`getAvailableCategories`). */
  const TerminalOrder: seq<string> := ["about", "education", "experience", "projects", "skills"]

  predicate IsRealCategory(category: string)
  {
    category in TerminalOrder
  }

  /** `getCategoryData`: the data of one of the five real categories. */
  function GetCategoryData(p: Portfolio, category: string): (r: Option<map<string, Value>>)
    ensures r.Some? <==> IsRealCategory(category) && category in p.normal
    ensures r.Some? ==> r.value == p.normal[category]
  {
    if IsRealCategory(category) && category in p.normal then Some(p.normal[category]) else None
  }

  /** `names.map(n => n.toLowerCase()).includes(lowered)`. */
  function ListsName(names: seq<string>, lowered: string): (b: bool)
    ensures b <==> exists k :: 0 <= k < |names| && LowerStr(names[k]) == lowered
  {
    if names == [] then false
    else if LowerStr(names[0]) == lowered then true
    else
      var b := ListsName(names[1..], lowered);
      assert b ==> exists k :: 0 <= k < |names| && LowerStr(names[k]) == lowered by {
        if b {
          var k :| 0 <= k < |names[1..]| && LowerStr(names[1..][k]) == lowered;
          assert names[k + 1] == names[1..][k];
        }
      }
      assert (exists k :: 0 <= k < |names| && LowerStr(names[k]) == lowered) ==> b by {
        if exists k :: 0 <= k < |names| && LowerStr(names[k]) == lowered {
          var k :| 0 <= k < |names| && LowerStr(names[k]) == lowered;
          assert names[1..][k - 1] == names[k];
        }
      }
      b
  }

  /** Alias `i` is the first entry of the table that lists `token`, ignoring case. */
  predicate FirstAlias(aliases: seq<Alias>, token: string, i: int)
  {
    0 <= i < |aliases| && ListsName(aliases[i].names, LowerStr(token)) &&
    forall j :: 0 <= j < i ==> !ListsName(aliases[j].names, LowerStr(token))
  }

  predicate Unaliased(aliases: seq<Alias>, token: string)
  {
    forall j :: 0 <= j < |aliases| ==> !ListsName(aliases[j].names, LowerStr(token))
  }

  /** What `resolveSimilarField` returns: the canonical name of the first
      alias entry listing the token case-insensitively, or else the token
      itself with its case kept. */
  function Resolve(aliases: seq<Alias>, token: string): (r: string)
    ensures (exists i :: FirstAlias(aliases, token, i) && r == aliases[i].canonical) ||
            (Unaliased(aliases, token) && r == token)
  {
    if aliases == [] then token
    else if ListsName(aliases[0].names, LowerStr(token)) then
      assert FirstAlias(aliases, token, 0);
      aliases[0].canonical
    else
      var r := Resolve(aliases[1..], token);
      assert (exists i :: FirstAlias(aliases, token, i) && r == aliases[i].canonical) ||
             (Unaliased(aliases, token) && r == token) by {
        if exists i :: FirstAlias(aliases[1..], token, i) && r == aliases[1..][i].canonical {
          var i :| FirstAlias(aliases[1..], token, i) && r == aliases[1..][i].canonical;
          assert FirstAlias(aliases, token, i + 1);
        } else {
          forall j | 0 <= j < |aliases| ensures !ListsName(aliases[j].names, LowerStr(token)) {
            if j > 0 { assert aliases[j] == aliases[1..][j - 1]; }
          }
        }
      }
      r
  }

  /** `resolveSimilarField`: the search loop with early return. */
  method ResolveSimilarField(aliases: seq<Alias>, queryField: string) returns (r: string)
    ensures r == Resolve(aliases, queryField)
  {
    var lowered := LowerStr(queryField);
    var i := 0;
    while i < |aliases|
      invariant 0 <= i <= |aliases|
      invariant Resolve(aliases, queryField) == Resolve(aliases[i..], queryField)
    {
      if ListsName(aliases[i].names, lowered) {
        return aliases[i].canonical;
      }
      assert aliases[i..][1..] == aliases[i + 1..];
      i := i + 1;
    }
    return queryField;
  }

  lemma FirstAliasUnique(aliases: seq<Alias>, token: string, i: int, j: int)
    requires FirstAlias(aliases, token, i) && FirstAlias(aliases, token, j)
    ensures i == j
  {
  }

  /** The first alias entry listing the token decides, whatever follows it. */
  lemma ResolveFirst(aliases: seq<Alias>, token: string, i: int)
    requires FirstAlias(aliases, token, i)
    ensures Resolve(aliases, token) == aliases[i].canonical
  {
    assert !Unaliased(aliases, token);
    var j :| FirstAlias(aliases, token, j) && Resolve(aliases, token) == aliases[j].canonical;
    FirstAliasUnique(aliases, token, i, j);
  }

  /** Resolution looks at the token only up to case: an unaliased token
      comes back as it was written, any other gives the same canonical name
      however it is capitalised. */
  lemma ResolveIgnoresCase(aliases: seq<Alias>, a: string, b: string)
    requires LowerStr(a) == LowerStr(b)
    ensures Unaliased(aliases, a) ==> Resolve(aliases, a) == a && Resolve(aliases, b) == b
    ensures !Unaliased(aliases, a) ==> Resolve(aliases, a) == Resolve(aliases, b)
  {
    var r := Resolve(aliases, a);
    if !Unaliased(aliases, a) {
      assert exists i :: FirstAlias(aliases, a, i) && r == aliases[i].canonical;
      var i :| FirstAlias(aliases, a, i) && Resolve(aliases, a) == aliases[i].canonical;
      assert FirstAlias(aliases, b, i);
      ResolveFirst(aliases, b, i);
    }
  }

  predicate InHidden(p: Portfolio, category: string, field: string)
  {
    category in p.hidden && field in p.hidden[category]
  }

  predicate InNormal(p: Portfolio, category: string, field: string)
  {
    GetCategoryData(p, category).Some? && field in GetCategoryData(p, category).value
  }

  /** The first category of `order` whose hidden overlay holds `field`. */
  function FirstHidden(p: Portfolio, order: seq<string>, field: string): (r: Option<nat>)
    ensures r.Some? ==> r.value < |order| && InHidden(p, order[r.value], field)
    ensures r.Some? ==> forall j :: 0 <= j < r.value ==> !InHidden(p, order[j], field)
    ensures r.None? ==> forall j :: 0 <= j < |order| ==> !InHidden(p, order[j], field)
  {
    if order == [] then None
    else if InHidden(p, order[0], field) then Some(0)
    else match FirstHidden(p, order[1..], field)
      case Some(i) => Some(i + 1)
      case None => None
  }

  /** The first category of `order` whose normal data holds `field`. */
  function FirstNormal(p: Portfolio, order: seq<string>, field: string): (r: Option<nat>)
    ensures r.Some? ==> r.value < |order| && InNormal(p, order[r.value], field)
    ensures r.Some? ==> forall j :: 0 <= j < r.value ==> !InNormal(p, order[j], field)
    ensures r.None? ==> forall j :: 0 <= j < |order| ==> !InNormal(p, order[j], field)
  {
    if order == [] then None
    else if InNormal(p, order[0], field) then Some(0)
    else match FirstNormal(p, order[1..], field)
      case Some(i) => Some(i + 1)
      case None => None
  }

  /** What `findFieldAnywhere` returns: the extra data first, then the
      hidden overlays in `order`, then the normal data in `order`. */
  function Locate(p: Portfolio, order: seq<string>, extraTag: string, field: string): (r: Lookup)
  {
    if field in p.extra then Lookup(p.extra[field], NormalField, Some(extraTag))
    else match FirstHidden(p, order, field)
      case Some(i) => Lookup(p.hidden[order[i]][field], HiddenField, Some(order[i]))
      case None =>
        match FirstNormal(p, order, field)
        case Some(i) => Lookup(p.normal[order[i]][field], NormalField, Some(order[i]))
        case None => Lookup(Null, InvalidField, None)
  }

  /** `findFieldAnywhere`: the extra-data test, then two search loops with
      early return. */
  method FindFieldAnywhere(p: Portfolio, order: seq<string>, extraTag: string, field: string)
    returns (r: Lookup)
    ensures r == Locate(p, order, extraTag, field)
  {
    if field in p.extra {
      return Lookup(p.extra[field], NormalField, Some(extraTag));
    }
    var i := 0;
    while i < |order|
      invariant 0 <= i <= |order|
      invariant forall j :: 0 <= j < i ==> !InHidden(p, order[j], field)
    {
      var category := order[i];
      if category in p.hidden && field in p.hidden[category] {
        assert FirstHidden(p, order, field) == Some(i);
        return Lookup(p.hidden[category][field], HiddenField, Some(category));
      }
      i := i + 1;
    }
    i := 0;
    while i < |order|
      invariant 0 <= i <= |order|
      invariant forall j :: 0 <= j < i ==> !InNormal(p, order[j], field)
    {
      var category := order[i];
      var categoryData := GetCategoryData(p, category);
      if categoryData.Some? && field in categoryData.value {
        assert FirstNormal(p, order, field) == Some(i);
        return Lookup(categoryData.value[field], NormalField, Some(category));
      }
      i := i + 1;
    }
    return Lookup(Null, InvalidField, None);
  }

  /** The two first-match searches are determined by their characterisation. */
  lemma FirstHiddenAt(p: Portfolio, order: seq<string>, field: string, i: nat)
    requires i < |order| && InHidden(p, order[i], field)
    requires forall j :: 0 <= j < i ==> !InHidden(p, order[j], field)
    ensures FirstHidden(p, order, field) == Some(i)
  {
  }

  lemma FirstNormalAt(p: Portfolio, order: seq<string>, field: string, i: nat)
    requires i < |order| && InNormal(p, order[i], field)
    requires forall j :: 0 <= j < i ==> !InNormal(p, order[j], field)
    ensures FirstNormal(p, order, field) == Some(i)
  {
  }

  /** The global lookup's answer, in terms of where the field is stored:
      found in the extra data, else hidden in the first overlay of `order`
      holding it, else normal in the first category of `order` holding it,
      else invalid with no source. */
  lemma LocatePrecedence(p: Portfolio, order: seq<string>, extraTag: string, field: string)
    ensures var r := Locate(p, order, extraTag, field);
      (field in p.extra ==> r == Lookup(p.extra[field], NormalField, Some(extraTag))) &&
      (field !in p.extra ==>
        (forall i :: (0 <= i < |order| && InHidden(p, order[i], field) &&
                      (forall j :: 0 <= j < i ==> !InHidden(p, order[j], field))) ==>
           r == Lookup(p.hidden[order[i]][field], HiddenField, Some(order[i]))) &&
        ((forall j :: 0 <= j < |order| ==> !InHidden(p, order[j], field)) ==>
          forall i :: (0 <= i < |order| && InNormal(p, order[i], field) &&
                       (forall j :: 0 <= j < i ==> !InNormal(p, order[j], field))) ==>
            r == Lookup(p.normal[order[i]][field], NormalField, Some(order[i]))) &&
        (r.kind == InvalidField <==>
          forall j :: 0 <= j < |order| ==> !InHidden(p, order[j], field) && !InNormal(p, order[j], field)))
  {
    forall i | 0 <= i < |order| && InHidden(p, order[i], field) &&
      (forall j :: 0 <= j < i ==> !InHidden(p, order[j], field))
      ensures FirstHidden(p, order, field) == Some(i)
    {
      FirstHiddenAt(p, order, field, i);
    }
    forall i | 0 <= i < |order| && InNormal(p, order[i], field) &&
      (forall j :: 0 <= j < i ==> !InNormal(p, order[j], field))
      ensures FirstNormal(p, order, field) == Some(i)
    {
      FirstNormalAt(p, order, field, i);
    }
  }

  /** The global lookup reports a source exactly for the fields it finds:
      the extra tag or one of the categories searched. */
  lemma LocateSource(p: Portfolio, order: seq<string>, extraTag: string, field: string)
    ensures var r := Locate(p, order, extraTag, field);
      (r.source.Some? <==> r.kind != InvalidField) &&
      (r.source.Some? ==> r.source.value == extraTag || r.source.value in order)
  {
  }

  /** What `analyzeField` returns: the category's hidden overlay first, then
      its normal data; the extra data is never consulted. */
  function AnalyzeField(p: Portfolio, category: string, field: string): (r: Lookup)
    ensures r.source == None
    ensures r.kind == HiddenField <==> InHidden(p, category, field)
    ensures r.kind == NormalField <==> !InHidden(p, category, field) && InNormal(p, category, field)
    ensures r.kind == InvalidField ==> r.value == Null
  {
    if category in p.hidden && field in p.hidden[category] then
      Lookup(p.hidden[category][field], HiddenField, None)
    else match GetCategoryData(p, category)
      case Some(data) =>
        if field in data then Lookup(data[field], NormalField, None) else Lookup(Null, InvalidField, None)
      case None => Lookup(Null, InvalidField, None)
  }

  /** A field the scoped lookup finds in a category of `order` is found by
      the global lookup too, with the same value when no earlier place in the
      global precedence holds it. */
  lemma ScopedImpliesGlobal(p: Portfolio, order: seq<string>, extraTag: string, k: nat, field: string)
    requires k < |order| && AnalyzeField(p, order[k], field).kind != InvalidField
    ensures Locate(p, order, extraTag, field).kind != InvalidField
  {
    LocatePrecedence(p, order, extraTag, field);
  }

  /** Where the data service and the terminal differ: a field hidden in both
      the `experience` and the `education` overlay is reported from
      `experience` by the data service and from `education` by the terminal. */
  lemma OrdersDisagree(p: Portfolio, field: string)
    requires field !in p.extra
    requires InHidden(p, "experience", field) && InHidden(p, "education", field)
    requires !InHidden(p, "about", field)
    ensures Locate(p, ApiOrder, "extraData", field).source == Some("experience")
    ensures Locate(p, TerminalOrder, "extra", field).source == Some("education")
  {
    FirstHiddenAt(p, ApiOrder, field, 1);
    FirstHiddenAt(p, TerminalOrder, field, 1);
  }

  /** Where they agree: a field in at most one hidden overlay and at most one
      category's normal data gets the same value and type from both, and the
      same source unless it comes from the extra data. */
  lemma OrdersAgree(p: Portfolio, field: string)
    requires forall a, b :: (a in TerminalOrder && b in TerminalOrder && InHidden(p, a, field) && InHidden(p, b, field)) ==> a == b
    requires forall a, b :: (a in TerminalOrder && b in TerminalOrder && InNormal(p, a, field) && InNormal(p, b, field)) ==> a == b
    ensures var api := Locate(p, ApiOrder, "extraData", field);
      var term := Locate(p, TerminalOrder, "extra", field);
      api.value == term.value && api.kind == term.kind &&
      (field !in p.extra ==> api.source == term.source)
  {
    var api := FirstHidden(p, ApiOrder, field);
    var term := FirstHidden(p, TerminalOrder, field);
    assert forall c :: c in ApiOrder <==> c in TerminalOrder;
    assert api.Some? <==> term.Some? by {
      if api.Some? { assert ApiOrder[api.value] in TerminalOrder; }
      if term.Some? { assert TerminalOrder[term.value] in ApiOrder; }
    }
    if api.Some? {
      assert ApiOrder[api.value] == TerminalOrder[term.value];
    }
    var apiN := FirstNormal(p, ApiOrder, field);
    var termN := FirstNormal(p, TerminalOrder, field);
    assert apiN.Some? <==> termN.Some? by {
      if apiN.Some? { assert ApiOrder[apiN.value] in TerminalOrder; }
      if termN.Some? { assert TerminalOrder[termN.value] in ApiOrder; }
    }
    if apiN.Some? {
      assert ApiOrder[apiN.value] == TerminalOrder[termN.value];
    }
  }
}
