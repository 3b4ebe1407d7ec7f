/** The description tables of the portfolio (`src/data/desc.ts`): the
    per-category descriptions, the ordered field-description table, the
    default field selections, and the listing and search helpers over them.
    The table contents are parameters of the model. */
module Desc {
  import opened Values
  import opened Text

  datatype CategoryDesc = CategoryDesc(description: string, hints: string)

  datatype FreestyleDesc = FreestyleDesc(description: string, hints: string, help: string)

  datatype FieldEntry = FieldEntry(name: string, description: string)

  /** One category of `fieldDesc`, its fields in declaration order. */
  datatype FieldGroup = FieldGroup(category: string, fields: seq<FieldEntry>)

  /** An element of `getAllFields()`. */
  datatype FieldInfo = FieldInfo(name: string, description: string, category: string)

  /** `categoryDesc`, `fieldDesc` (categories in declaration order),
      `freestyleDesc` and `defaultFields` (whose `freestyle` entry is kept
      apart from the per-category ones). */
  datatype Descriptions = Descriptions(
    categories: map<string, CategoryDesc>,
    fieldDesc: seq<FieldGroup>,
    freestyle: FreestyleDesc,
    defaults: map<string, seq<string>>,
    freestyleDefaults: seq<string>)

  /** A category description as the plain object the API returns. */
  function CategoryDescValue(d: CategoryDesc): (r: Value)
  {
    Object([Entry("description", Str(d.description)), Entry("hints", Str(d.hints))])
  }

  function FreestyleDescValue(d: FreestyleDesc): (r: Value)
  {
    Object([Entry("description", Str(d.description)), Entry("hints", Str(d.hints)), Entry("help", Str(d.help))])
  }

  /** `fieldDesc[category]`: the group declared for `category`, if any. */
  function GroupOf(fd: seq<FieldGroup>, category: string): (r: Option<FieldGroup>)
    ensures r.Some? ==> r.value in fd && r.value.category == category
    ensures r.None? ==> forall k :: 0 <= k < |fd| ==> fd[k].category != category
  {
    if fd == [] then None
    else if fd[0].category == category then Some(fd[0])
    else GroupOf(fd[1..], category)
  }

  function Names(entries: seq<FieldEntry>): (r: seq<string>)
    ensures |r| == |entries|
    ensures forall i :: 0 <= i < |r| ==> r[i] == entries[i].name
  {
    seq(|entries|, i requires 0 <= i < |entries| => entries[i].name)
  }

  predicate Unlisted(category: string)
  {
    category == "hidden" || category == "help"
  }

  /** `getCategoryFields`: the field names declared for `category`, in
      declaration order; none for `hidden`, `help` and unknown categories. */
  function GetCategoryFields(fd: seq<FieldGroup>, category: string): (r: seq<string>)
    ensures Unlisted(category) ==> r == []
    ensures GroupOf(fd, category).None? ==> r == []
    ensures !Unlisted(category) && GroupOf(fd, category).Some? ==>
              |r| == |GroupOf(fd, category).value.fields| &&
              forall i :: 0 <= i < |r| ==> r[i] == GroupOf(fd, category).value.fields[i].name
  {
    if Unlisted(category) then []
    else match GroupOf(fd, category)
      case Some(g) => Names(g.fields)
      case None => []
  }

  /** The description of the first entry named `name`, if any. */
  function DescriptionIn(entries: seq<FieldEntry>, name: string): (r: Option<string>)
    ensures r.Some? ==> FieldEntry(name, r.value) in entries
    ensures r.None? ==> forall i :: 0 <= i < |entries| ==> entries[i].name != name
  {
    if entries == [] then None
    else if entries[0].name == name then Some(entries[0].description)
    else DescriptionIn(entries[1..], name)
  }

  function FallbackDescription(fieldName: string): (r: string)
  {
    fieldName + " information"
  }

  /** `getFieldDescription`: the stored description when there is a
      non-empty one, `"<fieldName> information"` otherwise. */
  function GetFieldDescription(fd: seq<FieldGroup>, category: string, fieldName: string): (r: string)
    ensures r != []
    ensures r == FallbackDescription(fieldName) ||
              exists g :: g in fd && g.category == category && FieldEntry(fieldName, r) in g.fields
    ensures !Unlisted(category) && GroupOf(fd, category).Some? &&
            DescriptionIn(GroupOf(fd, category).value.fields, fieldName).Some? &&
            DescriptionIn(GroupOf(fd, category).value.fields, fieldName).value != [] ==>
              r == DescriptionIn(GroupOf(fd, category).value.fields, fieldName).value
    ensures Unlisted(category) || GroupOf(fd, category).None? ||
            DescriptionIn(GroupOf(fd, category).value.fields, fieldName).None? ||
            DescriptionIn(GroupOf(fd, category).value.fields, fieldName).value == [] ==>
              r == FallbackDescription(fieldName)
  {
    if Unlisted(category) then FallbackDescription(fieldName)
    else match GroupOf(fd, category)
      case None => FallbackDescription(fieldName)
      case Some(g) =>
        match DescriptionIn(g.fields, fieldName)
        case Some(d) => if d != [] then d else FallbackDescription(fieldName)
        case None => FallbackDescription(fieldName)
  }

  /** The entries of one group, tagged with its category. */
  function GroupInfos(g: FieldGroup): (r: seq<FieldInfo>)
    ensures |r| == |g.fields|
    ensures forall j :: 0 <= j < |r| ==>
              r[j] == FieldInfo(g.fields[j].name, g.fields[j].description, g.category)
  {
    seq(|g.fields|, j requires 0 <= j < |g.fields| =>
      FieldInfo(g.fields[j].name, g.fields[j].description, g.category))
  }

  /** What `getAllFields` returns: every group's entries, groups in order. */
  function AllFields(fd: seq<FieldGroup>): (r: seq<FieldInfo>)
  {
    if fd == [] then [] else AllFields(fd[..|fd| - 1]) + GroupInfos(fd[|fd| - 1])
  }

  /** Total number of declared fields. */
  function FieldCount(fd: seq<FieldGroup>): (r: nat)
  {
    if fd == [] then 0 else FieldCount(fd[..|fd| - 1]) + |fd[|fd| - 1].fields|
  }

  /** `getAllFields`: the nested `forEach` that pushes one record per field. */
  method GetAllFields(fd: seq<FieldGroup>) returns (result: seq<FieldInfo>)
    ensures result == AllFields(fd)
  {
    result := [];
    var k := 0;
    while k < |fd|
      invariant 0 <= k <= |fd|
      invariant result == AllFields(fd[..k])
    {
      var g := fd[k];
      var j := 0;
      while j < |g.fields|
        invariant 0 <= j <= |g.fields|
        invariant result == AllFields(fd[..k]) + GroupInfos(g)[..j]
      {
        result := result + [FieldInfo(g.fields[j].name, g.fields[j].description, g.category)];
        j := j + 1;
      }
      assert GroupInfos(g)[..j] == GroupInfos(g);
      assert fd[..k + 1][..k] == fd[..k];
      k := k + 1;
    }
    assert fd[..|fd|] == fd;
  }

  /** The listing has one element per declared field. */
  lemma {:induction false} AllFieldsLength(fd: seq<FieldGroup>)
    ensures |AllFields(fd)| == FieldCount(fd)
  {
    if fd != [] {
      AllFieldsLength(fd[..|fd| - 1]);
    }
  }

  /** A record is listed exactly when some group declares that field. */
  lemma {:induction false} AllFieldsMember(fd: seq<FieldGroup>, x: FieldInfo)
    ensures x in AllFields(fd) <==>
              exists g :: g in fd && g.category == x.category && FieldEntry(x.name, x.description) in g.fields
  {
    if fd != [] {
      var init := fd[..|fd| - 1];
      var g := fd[|fd| - 1];
      AllFieldsMember(init, x);
      assert fd == init + [g];
      if x in GroupInfos(g) {
        var j :| 0 <= j < |GroupInfos(g)| && GroupInfos(g)[j] == x;
        assert g.fields[j] == FieldEntry(x.name, x.description);
      }
      if g.category == x.category && FieldEntry(x.name, x.description) in g.fields {
        var j :| 0 <= j < |g.fields| && g.fields[j] == FieldEntry(x.name, x.description);
        assert GroupInfos(g)[j] == x;
      }
    }
  }

  /** `getCategoryFields` lists nothing `getAllFields` does not list under
      that category. */
  lemma CategoryFieldsListed(fd: seq<FieldGroup>, category: string, i: nat)
    requires i < |GetCategoryFields(fd, category)|
    ensures exists d :: FieldInfo(GetCategoryFields(fd, category)[i], d, category) in AllFields(fd)
  {
    var g := GroupOf(fd, category).value;
    var e := g.fields[i];
    AllFieldsMember(fd, FieldInfo(e.name, e.description, category));
  }

  /** The case-insensitive test of `searchFields`; `term` is already lower-cased. */
  predicate Hit(x: FieldInfo, term: string)
  {
    Contains(LowerStr(x.name), term) || Contains(LowerStr(x.description), term)
  }

  /** The `filter` of `searchFields`: the entries that match, in their order. */
  function Matching(infos: seq<FieldInfo>, term: string): (r: seq<FieldInfo>)
    ensures forall x :: x in r ==> x in infos && Hit(x, term)
    ensures |r| <= |infos|
    ensures |infos| == 1 ==> r == if Hit(infos[0], term) then infos else []
  {
    if infos == [] then []
    else (if Hit(infos[0], term) then [infos[0]] else []) + Matching(infos[1..], term)
  }

  /** `searchFields`: the listed fields whose name or description contains
      the term, ignoring case, in listing order. */
  function SearchFields(fd: seq<FieldGroup>, searchTerm: string): (r: seq<FieldInfo>)
    ensures forall x :: x in r ==> x in AllFields(fd) && Hit(x, LowerStr(searchTerm))
  {
    Matching(AllFields(fd), LowerStr(searchTerm))
  }

  /** Filtering a concatenation filters each part and keeps them in order;
      with the one-element case of `Matching` this fixes the result to be
      the matching entries in their original order. */
  lemma {:induction false} MatchingAppend(a: seq<FieldInfo>, b: seq<FieldInfo>, term: string)
    ensures Matching(a + b, term) == Matching(a, term) + Matching(b, term)
  {
    if a != [] {
      MatchingAppend(a[1..], b, term);
      assert (a + b)[1..] == a[1..] + b;
    } else {
      assert a + b == b;
    }
  }

  /** Searching lists the matches group by group, in declaration order: the
      matches of a further group come after all earlier ones. */
  lemma SearchFieldsGroups(fd: seq<FieldGroup>, g: FieldGroup, searchTerm: string)
    ensures SearchFields(fd + [g], searchTerm) ==
              SearchFields(fd, searchTerm) + Matching(GroupInfos(g), LowerStr(searchTerm))
  {
    assert (fd + [g])[..|fd|] == fd;
    MatchingAppend(AllFields(fd), GroupInfos(g), LowerStr(searchTerm));
  }

  lemma {:induction false} MatchingComplete(infos: seq<FieldInfo>, term: string, x: FieldInfo)
    requires x in infos && Hit(x, term)
    ensures x in Matching(infos, term)
  {
    if infos[0] != x {
      assert x in infos[1..];
      MatchingComplete(infos[1..], term, x);
    }
  }

  /** Every listed field that matches is found. */
  lemma SearchFieldsComplete(fd: seq<FieldGroup>, searchTerm: string, x: FieldInfo)
    requires x in AllFields(fd) && Hit(x, LowerStr(searchTerm))
    ensures x in SearchFields(fd, searchTerm)
  {
    MatchingComplete(AllFields(fd), LowerStr(searchTerm), x);
  }

  lemma {:induction false} MatchingAll(infos: seq<FieldInfo>, term: string)
    requires forall i :: 0 <= i < |infos| ==> Hit(infos[i], term)
    ensures Matching(infos, term) == infos
  {
    if infos != [] {
      MatchingAll(infos[1..], term);
    }
  }

  /** The empty search term matches every field, in order. */
  lemma SearchEmptyTerm(fd: seq<FieldGroup>)
    ensures SearchFields(fd, "") == AllFields(fd)
  {
    var all := AllFields(fd);
    forall i | 0 <= i < |all| ensures Hit(all[i], LowerStr("")) {
      ContainsEmpty(LowerStr(all[i].name));
    }
    MatchingAll(all, LowerStr(""));
  }
}
