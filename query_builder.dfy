/** The query builder (`src/utils/queryBuilder.ts`): the tree of field
    nodes built from a field-description record, the selection of field
    paths with the query text generated from it, the query statistics, and
    the path suggestions. The description record is a parameter. */
module QueryBuilder {
  import opened Values
  import opened Text
  import opened StringOrder
  import opened QuerySyntax
  import CategoryInfo
  import ApiExecutor

  /** At most this many suggestions are offered. */
  const SuggestionLimit: nat := 5

  /** Paths ending in this are never suggested. */
  const HiddenSuffix: string := ".isHidden"

  /** The type names a field gets unless its description declares one. */
  const BasicTypes: set<string> := {"string", "number", "boolean", "object", "array"}

  /** A node of the field tree. A node without a `fields` record and one
      whose record is empty both have no children here. */
  datatype QueryNode = QueryNode(
    name: string,
    fieldType: string,
    description: Option<Value>,
    isSelected: bool,
    isHidden: bool,
    path: string,
    children: seq<QueryNode>)

  // ---------------------------------------------------------------------
  // Field types and the node tree

  /** `obj.type` when it is a non-empty string. */
  function DeclaredType(entries: seq<Entry>): (r: Option<string>)
  {
    match Get(entries, "type")
    case Some(Str(t)) => if t != [] then Some(t) else None
    case _ => None
  }

  /** `getFieldType`: arrays first, then an object's declared type, then an
      object with a truthy `fields`, then numbers and booleans; anything else
      is a string. */
  function GetFieldType(value: Value): (r: string)
  {
    match value
    case List(_) => "array"
    case Object(entries) =>
      (match DeclaredType(entries)
       case Some(t) => t
       case None =>
         match Get(entries, "fields")
         case Some(f) => if Truthy(f) then "object" else "string"
         case None => "string")
    case Num(_) => "number"
    case Bool(_) => "boolean"
    case _ => "string"
  }

  /** A field's type is one of the basic names or the type its description declares. */
  lemma FieldTypeNamed(value: Value)
    ensures GetFieldType(value) in BasicTypes ||
              (value.Object? && DeclaredType(value.entries) == Some(GetFieldType(value)))
  {
  }

  /** The record below a node: the value's `fields` property, when the value
      is an object and that property is an object or an array. */
  function ChildRecord(value: Value): (r: Option<Value>)
    ensures r.Some? ==> r.value < value && (r.value.Object? || r.value.List?)
  {
    match value
    case Object(entries) =>
      (match Get(entries, "fields")
       case Some(f) =>
         assert f < value by {
           var i :| 0 <= i < |entries| && entries[i] == Entry("fields", f);
         }
         if f.Object? || f.List? then Some(f) else None
       case None => None)
    case _ => None
  }

  /** A node with children is typed `object` unless it declares a type. */
  lemma ChildrenTyped(value: Value)
    requires ChildRecord(value).Some? && DeclaredType(value.entries).None?
    ensures GetFieldType(value) == "object"
  {
  }

  /** The decimal digits of `n`, as `Object.entries` names array indices. */
  function Decimal(n: nat): (r: string)
  {
    if n < 10 then ["0123456789"[n]] else Decimal(n / 10) + ["0123456789"[n % 10]]
  }

  /** `Object.entries` of an object, or of an array (keyed by its indices). */
  function RecordEntries(record: Value): (es: seq<Entry>)
    ensures forall i :: 0 <= i < |es| ==> es[i].value < record
  {
    match record
    case Object(entries) => entries
    case List(items) => seq(|items|, i requires 0 <= i < |items| => Entry(Decimal(i), items[i]))
    case _ => []
  }

  /** The node for the property `key` holding `value`, at `pathString`. */
  function NodeOf(key: string, value: Value, pathString: string, selected: seq<string>, children: seq<QueryNode>): (r: QueryNode)
  {
    QueryNode(
      key,
      GetFieldType(value),
      match value
      case Str(_) => Some(value)
      case Object(entries) => Get(entries, "description")
      case _ => None,
      pathString in selected,
      match value
      case Object(entries) => Get(entries, "isHidden").Some? && Truthy(Get(entries, "isHidden").value)
      case _ => false,
      pathString,
      children)
  }

  /** `getFieldNodes`: one node per property of the record, in order, with
      the nodes of its `fields` record below it. */
  function GetFieldNodes(fields: Value, path: seq<string>, selected: seq<string>): (r: seq<QueryNode>)
    ensures |r| == |RecordEntries(fields)|
    decreases fields
  {
    var es := RecordEntries(fields);
    seq(|es|, i requires 0 <= i < |es| =>
      var currentPath := path + [es[i].key];
      var child := ChildRecord(es[i].value);
      NodeOf(es[i].key, es[i].value, Join(currentPath, "."), selected,
             if child.Some? then GetFieldNodes(child.value, currentPath, selected) else []))
  }

  /** Each node is named by its property, its path is the dotted path to it
      (just the name at the top), it is selected exactly when its path is,
      and a string-valued property is never hidden. */
  lemma FieldNodeShape(fields: Value, path: seq<string>, selected: seq<string>, i: nat)
    requires i < |RecordEntries(fields)|
    ensures var n, e := GetFieldNodes(fields, path, selected)[i], RecordEntries(fields)[i];
      n.name == e.key && n.path == Join(path + [e.key], ".") &&
      (path == [] ==> n.path == e.key) &&
      (n.isSelected <==> n.path in selected) &&
      n.fieldType == GetFieldType(e.value) &&
      (e.value.Str? ==> !n.isHidden && n.description == Some(e.value)) &&
      (ChildRecord(e.value).None? ==> n.children == [])
  {
    assert [] + [RecordEntries(fields)[i].key] == [RecordEntries(fields)[i].key];
  }

  /** A child's path is its parent's path, a dot and its name. */
  lemma ChildPath(fields: Value, path: seq<string>, selected: seq<string>, i: nat, j: nat)
    requires i < |RecordEntries(fields)|
    requires j < |GetFieldNodes(fields, path, selected)[i].children|
    ensures var n := GetFieldNodes(fields, path, selected)[i];
      n.children[j].path == n.path + "." + n.children[j].name
  {
    var e := RecordEntries(fields)[i];
    var currentPath := path + [e.key];
    var child := ChildRecord(e.value).value;
    var kid := RecordEntries(child)[j];
    FieldNodeShape(child, currentPath, selected, j);
    JoinSnoc(currentPath, kid.key, ".");
  }

  /** Joining one more part appends the separator and the part. */
  lemma {:induction false} JoinSnoc(parts: seq<string>, x: string, sep: string)
    requires parts != []
    ensures Join(parts + [x], sep) == Join(parts, sep) + sep + x
  {
    if |parts| > 1 {
      assert (parts + [x])[1..] == parts[1..] + [x];
      JoinSnoc(parts[1..], x, sep);
    }
  }

  // ---------------------------------------------------------------------
  // Paths of a tree

  /** A node's path, then its children's paths, each subtree in turn. */
  function Preorder(node: QueryNode): (r: seq<string>)
    decreases node
  {
    [node.path] + PreorderAll(node.children)
  }

  function PreorderAll(nodes: seq<QueryNode>): (r: seq<string>)
    decreases nodes
  {
    if nodes == [] then []
    else PreorderAll(nodes[..|nodes| - 1]) + Preorder(nodes[|nodes| - 1])
  }

  /** The number of nodes in a subtree. */
  function Size(node: QueryNode): (r: nat)
    decreases node
  {
    1 + SizeAll(node.children)
  }

  function SizeAll(nodes: seq<QueryNode>): (r: nat)
    decreases nodes
  {
    if nodes == [] then 0
    else SizeAll(nodes[..|nodes| - 1]) + Size(nodes[|nodes| - 1])
  }

  /** `getAllPaths`: the node's path, then the paths below each child. */
  method GetAllPaths(node: QueryNode) returns (paths: seq<string>)
    ensures paths == Preorder(node)
    decreases node
  {
    paths := [node.path];
    for i := 0 to |node.children|
      invariant paths == [node.path] + PreorderAll(node.children[..i])
    {
      var below := GetAllPaths(node.children[i]);
      assert node.children[..i + 1][..i] == node.children[..i];
      paths := paths + below;
    }
    assert node.children[..|node.children|] == node.children;
  }

  /** The listing starts with the node's own path and has one path per node
      of the subtree. */
  lemma {:induction false} PreorderShape(node: QueryNode)
    ensures Preorder(node) != [] && Preorder(node)[0] == node.path
    ensures |Preorder(node)| == Size(node)
    decreases node
  {
    PreorderAllSize(node.children);
  }

  lemma {:induction false} PreorderAllSize(nodes: seq<QueryNode>)
    ensures |PreorderAll(nodes)| == SizeAll(nodes)
    decreases nodes
  {
    if nodes != [] {
      PreorderAllSize(nodes[..|nodes| - 1]);
      PreorderShape(nodes[|nodes| - 1]);
    }
  }

  // ---------------------------------------------------------------------
  // Suggestions

  /** The suggestion filter: contains the query ignoring case and is not a
      hidden marker. */
  predicate Suggestible(path: string, query: string)
  {
    Contains(LowerStr(path), LowerStr(query)) && !EndsWith(path, HiddenSuffix)
  }

  /** `paths.filter(...)` with the suggestion filter: the paths it keeps,
      in their order. */
  function Matching(paths: seq<string>, query: string): (r: seq<string>)
    ensures |r| <= |paths|
    ensures |paths| == 1 ==> r == if Suggestible(paths[0], query) then paths else []
  {
    if paths == [] then []
    else (if Suggestible(paths[0], query) then [paths[0]] else []) + Matching(paths[1..], query)
  }

  lemma {:induction false} MatchingIff(paths: seq<string>, query: string)
    ensures forall p :: p in Matching(paths, query) <==> p in paths && Suggestible(p, query)
  {
    if paths != [] {
      MatchingIff(paths[1..], query);
      assert paths == [paths[0]] + paths[1..];
    }
  }

  /** Filtering a concatenation filters each part and keeps them in order;
      with the one-element case of `Matching` this fixes the result to be
      the suggestible paths in their original order. */
  lemma {:induction false} MatchingAppend(a: seq<string>, b: seq<string>, query: string)
    ensures Matching(a + b, query) == Matching(a, query) + Matching(b, query)
  {
    if a != [] {
      MatchingAppend(a[1..], b, query);
      assert (a + b)[1..] == a[1..] + b;
    } else {
      assert a + b == b;
    }
  }

  /** Every path of the tree built from `fieldDescriptions`, in order. */
  function AllPaths(fieldDescriptions: Value, selected: seq<string>): (r: seq<string>)
  {
    PreorderAll(GetFieldNodes(fieldDescriptions, [], selected))
  }

  /** `getFieldSuggestions`: nothing for an empty query, otherwise the first
      five paths the filter keeps. */
  function GetFieldSuggestions(fieldDescriptions: Value, selected: seq<string>, query: string): (r: seq<string>)
  {
    if query == [] then []
    else
      var matching := Matching(AllPaths(fieldDescriptions, selected), query);
      if |matching| <= SuggestionLimit then matching else matching[..SuggestionLimit]
  }

  /** Suggestions are paths of the tree that contain the query ignoring case
      and are not hidden markers, at most five of them; when fewer than five
      are offered, every such path is. For a non-empty query they are the
      first five (or all) of the filtered paths, in tree order. */
  lemma SuggestionsSound(fieldDescriptions: Value, selected: seq<string>, query: string)
    ensures var r, paths := GetFieldSuggestions(fieldDescriptions, selected, query), AllPaths(fieldDescriptions, selected);
      (query == [] ==> r == []) &&
      |r| <= SuggestionLimit &&
      (forall p :: p in r ==> p in paths && Suggestible(p, query)) &&
      (query != [] && |r| < SuggestionLimit ==> forall p :: p in paths && Suggestible(p, query) ==> p in r) &&
      (query != [] ==> |r| == (if |Matching(paths, query)| < SuggestionLimit then |Matching(paths, query)| else SuggestionLimit)) &&
      (query != [] ==> r == Matching(paths, query)[..|r|])
  {
    MatchingIff(AllPaths(fieldDescriptions, selected), query);
  }

  // ---------------------------------------------------------------------
  // The selection and the generated query

  /** `set.delete(x)` on a JavaScript `Set`, kept in insertion order. */
  function Removed(s: seq<string>, x: string): (r: seq<string>)
    ensures forall y :: y in r <==> y in s && y != x
    ensures Distinct(s) ==> Distinct(r)
  {
    if s == [] then []
    else
      var rest := Removed(s[1..], x);
      assert Distinct(s) ==> s[0] !in rest by {
        assert forall j :: 0 <= j < |s| - 1 ==> s[1..][j] == s[j + 1];
      }
      (if s[0] == x then [] else [s[0]]) + rest
  }

  /** The selection after `toggleField(path)`. */
  function Toggled(s: seq<string>, path: string): (r: seq<string>)
  {
    if path in s then Removed(s, path) else s + [path]
  }

  /** Toggling removes the path when it is selected and adds it otherwise;
      every other path keeps its state. */
  lemma ToggledMembers(s: seq<string>, path: string)
    requires Distinct(s)
    ensures Distinct(Toggled(s, path))
    ensures forall y :: y in Toggled(s, path) <==> if y == path then path !in s else y in s
  {
  }

  /** Removing what was just appended restores the sequence. */
  lemma {:induction false} RemovedAppended(s: seq<string>, x: string)
    requires x !in s
    ensures Removed(s + [x], x) == s
  {
    if s != [] {
      assert (s + [x])[1..] == s[1..] + [x];
      RemovedAppended(s[1..], x);
    }
  }

  /** Toggling twice restores the selected set (and the very sequence when
      the path was not selected; otherwise the path moves to the end), and
      so the generated query. */
  lemma ToggleTwice(s: seq<string>, path: string)
    requires Distinct(s)
    ensures forall y :: y in Toggled(Toggled(s, path), path) <==> y in s
    ensures path !in s ==> Toggled(Toggled(s, path), path) == s
    ensures QueryText(Toggled(Toggled(s, path), path)) == QueryText(s)
  {
    ToggledMembers(s, path);
    ToggledMembers(Toggled(s, path), path);
    if path !in s {
      RemovedAppended(s, path);
    }
    SameSelectionSameQuery(Toggled(Toggled(s, path), path), s);
  }

  /** `.map((f) => '  ' + f)`. */
  function Indented(fields: seq<string>): (r: seq<string>)
    ensures |r| == |fields|
  {
    seq(|fields|, i requires 0 <= i < |fields| => "  " + fields[i])
  }

  /** `generateQuery`: nothing for an empty selection, otherwise the sorted
      paths one per line, indented by two spaces, between `query {` and `}`. */
  function QueryText(selected: seq<string>): (r: string)
  {
    if |selected| == 0 then []
    else "query {\n" + Join(Indented(Sort(selected)), "\n") + "\n}"
  }

  lemma QueryTextEmptyIff(selected: seq<string>)
    ensures QueryText(selected) == [] <==> selected == []
  {
    if selected != [] {
      assert QueryText(selected)[0] == 'q';
    }
  }

  /** The generated query depends on the selected set only, not on the order
      of selection. */
  lemma SameSelectionSameQuery(a: seq<string>, b: seq<string>)
    requires Distinct(a) && Distinct(b)
    requires forall x :: x in a <==> x in b
    ensures QueryText(a) == QueryText(b)
  {
    SortDistinct(a);
    SortDistinct(b);
    StrictlySortedUnique(Sort(a), Sort(b));
    assert a == [] <==> b == [] by {
      if a != [] {
        assert a[0] in b;
      }
      if b != [] {
        assert b[0] in a;
      }
    }
  }

  /** One line per name, each indented by two spaces. */
  lemma {:induction false} IndentJoin(xs: seq<string>)
    requires xs != []
    ensures "\n" + Join(Indented(xs), "\n") == "\n  " + Join(xs, "\n  ")
  {
    if |xs| > 1 {
      var rest := Join(Indented(xs[1..]), "\n");
      assert Indented(xs)[1..] == Indented(xs[1..]);
      assert Join(Indented(xs), "\n") == "  " + xs[0] + "\n" + rest;
      IndentJoin(xs[1..]);
      assert "\n" + Join(Indented(xs), "\n") == "\n  " + xs[0] + ("\n" + rest);
    }
  }

  /** The generated query is the freestyle template over the sorted paths. */
  lemma QueryTextForm(selected: seq<string>)
    requires selected != []
    ensures QueryText(selected) == CategoryInfo.FreestyleExample(Sort(selected))
  {
    var sorted := Sort(selected);
    var joined := Join(sorted, "\n  ");
    IndentJoin(sorted);
    assert "query {\n" + Join(Indented(sorted), "\n") + "\n}" ==
           "query {" + ("\n" + Join(Indented(sorted), "\n")) + "\n}";
    assert "query {" + ("\n  " + joined) + "\n}" == "query " + ("{" + ("\n  " + joined + "\n") + "}");
  }

  /** The generated query round-trips through the API: it is freestyle, and
      the API reads it as exactly the selected paths, sorted. */
  lemma QueryTextParses(selected: seq<string>)
    requires selected != [] && CategoryInfo.PlainNames(selected)
    ensures IsFreestyleQuery(QueryText(selected))
    ensures ApiExecutor.Parse(QueryText(selected)) == ApiExecutor.FreestyleQuery(Sort(selected))
  {
    var sorted := Sort(selected);
    forall i | 0 <= i < |sorted|
      ensures CategoryInfo.PlainName(sorted[i])
    {
      assert sorted[i] in multiset(sorted);
    }
    QueryTextForm(selected);
    CategoryInfo.FreestyleExampleParses(sorted);
  }

  // ---------------------------------------------------------------------
  // Statistics

  /** `fieldsUsed.add(field)` for each field in turn. */
  function AddEach(used: seq<string>, fields: seq<string>): (r: seq<string>)
    ensures Distinct(used) ==> Distinct(r)
  {
    if fields == [] then used
    else Add(AddEach(used, fields[..|fields| - 1]), fields[|fields| - 1])
  }

  /** The used fields gain exactly the recorded selection. */
  lemma {:induction false} AddEachMembers(used: seq<string>, fields: seq<string>)
    ensures forall x :: x in AddEach(used, fields) <==> x in used || x in fields
  {
    if fields != [] {
      var init := fields[..|fields| - 1];
      AddEachMembers(used, init);
      assert fields == init + [fields[|fields| - 1]];
    }
  }

  /** The selection and the statistics of `useQueryBuilder`. */
  class QueryBuilder {
    var selectedFields: seq<string>
    var totalQueries: int
    var lastExecutionTime: int
    var fieldsUsed: seq<string>
    var totalTime: int
    var lastResponseSize: int

    /** Both sets hold each path once. */
    ghost predicate Valid()
      reads this
    {
      Distinct(selectedFields) && Distinct(fieldsUsed)
    }

    constructor()
      ensures Valid()
      ensures selectedFields == [] && fieldsUsed == []
      ensures totalQueries == 0 && lastExecutionTime == 0 && totalTime == 0 && lastResponseSize == 0
    {
      selectedFields := [];
      totalQueries := 0;
      lastExecutionTime := 0;
      fieldsUsed := [];
      totalTime := 0;
      lastResponseSize := 0;
    }

    /** `toggleField`: a copy of the selection with the path deleted or
      added replaces the selection; the statistics are untouched. */
    method ToggleField(path: string)
      requires Valid()
      modifies this
      ensures selectedFields == Toggled(old(selectedFields), path)
      ensures fieldsUsed == old(fieldsUsed) && totalQueries == old(totalQueries) && totalTime == old(totalTime)
      ensures lastExecutionTime == old(lastExecutionTime) && lastResponseSize == old(lastResponseSize)
      ensures Valid()
    {
      var fields := selectedFields;
      if path in fields {
        fields := Removed(fields, path);
      } else {
        fields := fields + [path];
      }
      ToggledMembers(selectedFields, path);
      selectedFields := fields;
    }

    /** `recordQuery`: one more query, its time added to the total, the last
      time and size kept, and every selected path marked as used. */
    method RecordQuery(executionTime: int, responseSize: int)
      requires Valid()
      modifies this
      ensures totalQueries == old(totalQueries) + 1
      ensures totalTime == old(totalTime) + executionTime
      ensures lastExecutionTime == executionTime && lastResponseSize == responseSize
      ensures fieldsUsed == AddEach(old(fieldsUsed), old(selectedFields))
      ensures selectedFields == old(selectedFields)
      ensures Valid()
    {
      totalQueries := totalQueries + 1;
      totalTime := totalTime + executionTime;
      lastExecutionTime := executionTime;
      lastResponseSize := responseSize;
      var selected := selectedFields;
      var used := fieldsUsed;
      for i := 0 to |selected|
        invariant used == AddEach(fieldsUsed, selected[..i])
      {
        assert selected[..i + 1][..i] == selected[..i];
        used := Add(used, selected[i]);
      }
      assert selected[..|selected|] == selected;
      fieldsUsed := used;
    }

    /** `generateQuery` on the current selection. */
    function GenerateQuery(): (r: string)
      reads this
    {
      QueryText(selectedFields)
    }

    /** `fieldNodes` for the current selection. */
    function FieldNodes(fieldDescriptions: Value): (r: seq<QueryNode>)
      reads this
    {
      GetFieldNodes(fieldDescriptions, [], selectedFields)
    }

    /** `getFieldSuggestions` for the current selection. */
    function FieldSuggestions(fieldDescriptions: Value, query: string): (r: seq<string>)
      reads this
    {
      GetFieldSuggestions(fieldDescriptions, selectedFields, query)
    }
  }
}
