/** The session statistics of the GraphQL page
    (`src/composables/useGraphqlStats.ts`): one record, updated in place by
    `trackGraphQLQuery` and `resetGraphQLStats`, and the views derived from
    it (`stats`, `getQueryHistory`, `achievements`). JavaScript `Set`s are
    sequences without repetitions, in insertion order. */
module GraphqlStats {
  import opened Values
  import opened Catalog
  import opened StringOrder
  import opened QuerySyntax
  import ApiExecutor

  /** The history keeps this many entries. */
  const HistoryLimit: nat := 50
  /** `recentQueries` shows this many entries. */
  const RecentLimit: nat := 5

  datatype QueryMode = CategoryMode | FreestyleMode

  /** One history entry; the timestamp is not modelled, and the mode, which
      `isFreestyleQuery` computes from the query alone, is `Mode`. */
  datatype HistoryEntry = HistoryEntry(query: string, totalFieldsRequested: nat)

  /** The entries of the response's `metadata.fieldTypes`, in the order
      `for...in` visits them. */
  type FieldTypes = seq<(string, FieldType)>

  /** The `graphqlStats` record. */
  datatype Stats = Stats(
    totalQueries: nat,
    hiddenFieldsFound: nat,
    uniqueFieldsDiscovered: seq<string>,
    queryHistory: seq<HistoryEntry>,
    foundHiddenFieldNames: seq<string>,
    invalidFieldsAttempted: nat)

  /** The record as the module creates it and as a reset leaves it. */
  function Initial(): (r: Stats)
  {
    Stats(0, 0, [], [], [], 0)
  }

  /** What every update keeps: both sets are sets, every hidden field found
      is also discovered, the hidden counter is the number of hidden fields
      found, and the history is capped. */
  predicate Consistent(s: Stats)
  {
    && Distinct(s.uniqueFieldsDiscovered)
    && Distinct(s.foundHiddenFieldNames)
    && (forall x :: x in s.foundHiddenFieldNames ==> x in s.uniqueFieldsDiscovered)
    && s.hiddenFieldsFound == |s.foundHiddenFieldNames|
    && |s.queryHistory| <= HistoryLimit
  }

  /** The `mode` of an entry: `isFreestyleQuery` of its query. */
  function Mode(e: HistoryEntry): (r: QueryMode)
  {
    if IsFreestyleQuery(e.query) then FreestyleMode else CategoryMode
  }

  /** The body of the `for...in` loop for one field: an invalid one is
      counted, any other one is discovered, and a hidden one is also found. */
  function Step(s: Stats, fieldPath: string, fieldType: FieldType): (r: Stats)
  {
    if fieldType == InvalidField then s.(invalidFieldsAttempted := s.invalidFieldsAttempted + 1)
    else
      s.(uniqueFieldsDiscovered := Add(s.uniqueFieldsDiscovered, fieldPath),
         foundHiddenFieldNames :=
           if fieldType == HiddenField then Add(s.foundHiddenFieldNames, fieldPath)
           else s.foundHiddenFieldNames)
  }

  /** The record after the loop has visited `entries`. The loop touches
      neither the query counter, the hidden counter nor the history; both
      sets only grow, and stay sets with the found fields among the
      discovered ones. */
  function Absorb(s: Stats, entries: FieldTypes): (r: Stats)
    ensures r.totalQueries == s.totalQueries && r.hiddenFieldsFound == s.hiddenFieldsFound
    ensures r.queryHistory == s.queryHistory
    decreases |entries|
  {
    if entries == [] then s
    else
      var (fieldPath, fieldType) := entries[|entries| - 1];
      Step(Absorb(s, entries[..|entries| - 1]), fieldPath, fieldType)
  }

  /** Both sets stay sets, the found fields stay among the discovered ones,
      and nothing the loop counts ever shrinks. */
  lemma {:induction false} AbsorbKeeps(s: Stats, entries: FieldTypes)
    requires Distinct(s.uniqueFieldsDiscovered) && Distinct(s.foundHiddenFieldNames)
    requires forall x :: x in s.foundHiddenFieldNames ==> x in s.uniqueFieldsDiscovered
    ensures var r := Absorb(s, entries);
      && Distinct(r.uniqueFieldsDiscovered) && Distinct(r.foundHiddenFieldNames)
      && (forall x :: x in r.foundHiddenFieldNames ==> x in r.uniqueFieldsDiscovered)
      && |r.uniqueFieldsDiscovered| >= |s.uniqueFieldsDiscovered|
      && |r.foundHiddenFieldNames| >= |s.foundHiddenFieldNames|
      && r.invalidFieldsAttempted >= s.invalidFieldsAttempted
    decreases |entries|
  {
    if entries != [] {
      AbsorbKeeps(s, entries[..|entries| - 1]);
    }
  }

  /** `queryHistory.slice(-50)` when it is longer than 50: the most recent
      50 entries, the oldest dropped first. */
  function Capped(h: seq<HistoryEntry>): (r: seq<HistoryEntry>)
    ensures |r| == if |h| > HistoryLimit then HistoryLimit else |h|
    ensures r == h[|h| - |r|..]
  {
    if |h| > HistoryLimit then h[|h| - HistoryLimit..] else h
  }

  /** `trackGraphQLQuery(queryStr, response)`, where `fieldTypes` is
      `response.metadata.fieldTypes` when both are present. */
  function Tracked(s: Stats, queryStr: string, fieldTypes: Option<FieldTypes>): (r: Stats)
    ensures r.totalQueries == s.totalQueries + 1
    ensures r.hiddenFieldsFound == |r.foundHiddenFieldNames|
    ensures r.queryHistory != [] &&
              r.queryHistory[|r.queryHistory| - 1].query == queryStr &&
              r.queryHistory[|r.queryHistory| - 1].totalFieldsRequested ==
                |r.uniqueFieldsDiscovered| + r.invalidFieldsAttempted
  {
    Logged(Absorbed(s, fieldTypes), queryStr)
  }

  /** The start of `trackGraphQLQuery`: the query is counted, then the loop
      runs when there are field types. */
  function Absorbed(s: Stats, fieldTypes: Option<FieldTypes>): (r: Stats)
  {
    var counted := s.(totalQueries := s.totalQueries + 1);
    if fieldTypes.Some? then Absorb(counted, fieldTypes.value) else counted
  }

  /** The end of `trackGraphQLQuery`, after the loop: the hidden counter is
      refreshed and the entry appended to the capped history. */
  function Logged(s: Stats, queryStr: string): (r: Stats)
  {
    var entry := HistoryEntry(queryStr, |s.uniqueFieldsDiscovered| + s.invalidFieldsAttempted);
    s.(hiddenFieldsFound := |s.foundHiddenFieldNames|, queryHistory := Capped(s.queryHistory + [entry]))
  }

  /** Each call appends one entry to the history and keeps at most the 50
      most recent, dropping the oldest first. */
  lemma TrackedHistory(s: Stats, queryStr: string, fieldTypes: Option<FieldTypes>)
    ensures var h := Tracked(s, queryStr, fieldTypes).queryHistory;
      var all := s.queryHistory + [h[|h| - 1]];
      h == all[|all| - |h|..] && |h| == if |all| > HistoryLimit then HistoryLimit else |all|
  {
  }

  /** Without field types in the response, only the query counter and the
      history change. */
  lemma WithoutFieldTypes(s: Stats, queryStr: string)
    requires Consistent(s)
    ensures var r := Tracked(s, queryStr, None);
      r == s.(totalQueries := s.totalQueries + 1, queryHistory := r.queryHistory)
  {
  }

  /** Every call keeps the record consistent. */
  lemma TrackedConsistent(s: Stats, queryStr: string, fieldTypes: Option<FieldTypes>)
    requires Consistent(s)
    ensures Consistent(Tracked(s, queryStr, fieldTypes))
  {
    if fieldTypes.Some? {
      AbsorbKeeps(s.(totalQueries := s.totalQueries + 1), fieldTypes.value);
    }
    var absorbed := Absorbed(s, fieldTypes);
    assert Distinct(absorbed.uniqueFieldsDiscovered) && Distinct(absorbed.foundHiddenFieldNames);
    assert forall x :: x in absorbed.foundHiddenFieldNames ==> x in absorbed.uniqueFieldsDiscovered;
  }

  /** The fields the loop discovers are exactly the ones given a type other
      than `invalid`. */
  lemma {:induction false} AbsorbDiscovers(s: Stats, entries: FieldTypes, x: string)
    ensures x in Absorb(s, entries).uniqueFieldsDiscovered <==>
              x in s.uniqueFieldsDiscovered ||
              exists i :: 0 <= i < |entries| && entries[i].0 == x && entries[i].1 != InvalidField
    decreases |entries|
  {
    if entries != [] {
      var n := |entries| - 1;
      var front := entries[..n];
      AbsorbDiscovers(s, front, x);
      forall i | 0 <= i < n ensures entries[i] == front[i] { }
    }
  }

  /** The fields the loop finds are exactly the ones typed `hidden`. */
  lemma {:induction false} AbsorbFinds(s: Stats, entries: FieldTypes, x: string)
    ensures x in Absorb(s, entries).foundHiddenFieldNames <==>
              x in s.foundHiddenFieldNames || exists i :: 0 <= i < |entries| && entries[i] == (x, HiddenField)
    decreases |entries|
  {
    if entries != [] {
      var n := |entries| - 1;
      var front := entries[..n];
      AbsorbFinds(s, front, x);
      forall i | 0 <= i < n ensures entries[i] == front[i] { }
    }
  }

  /** The types `fieldTypes` lists, in order. */
  function Types(entries: FieldTypes): (r: seq<FieldType>)
    ensures |r| == |entries| && forall i :: 0 <= i < |r| ==> r[i] == entries[i].1
  {
    seq(|entries|, i requires 0 <= i < |entries| => entries[i].1)
  }

  /** Every `invalid` entry is counted, repeated names included. */
  lemma {:induction false} AbsorbInvalid(s: Stats, entries: FieldTypes)
    ensures Absorb(s, entries).invalidFieldsAttempted ==
              s.invalidFieldsAttempted + multiset(Types(entries))[InvalidField]
    decreases |entries|
  {
    if entries != [] {
      var n := |entries| - 1;
      AbsorbInvalid(s, entries[..n]);
      assert Types(entries) == Types(entries[..n]) + [entries[n].1];
    }
  }

  /** What a call with field types adds: the discovered and found fields
      and the invalid counter, in terms of the entries alone. */
  lemma {:induction false} TrackedFields(s: Stats, queryStr: string, entries: FieldTypes, x: string)
    ensures var r := Tracked(s, queryStr, Some(entries));
      (x in r.uniqueFieldsDiscovered <==>
        x in s.uniqueFieldsDiscovered || exists i :: 0 <= i < |entries| && entries[i].0 == x && entries[i].1 != InvalidField) &&
      (x in r.foundHiddenFieldNames <==>
        x in s.foundHiddenFieldNames || exists i :: 0 <= i < |entries| && entries[i] == (x, HiddenField)) &&
      r.invalidFieldsAttempted == s.invalidFieldsAttempted + multiset(Types(entries))[InvalidField]
  {
    var counted := s.(totalQueries := s.totalQueries + 1);
    var r, a := Tracked(s, queryStr, Some(entries)), Absorb(counted, entries);
    assert r.uniqueFieldsDiscovered == a.uniqueFieldsDiscovered &&
           r.foundHiddenFieldNames == a.foundHiddenFieldNames &&
           r.invalidFieldsAttempted == a.invalidFieldsAttempted;
    AbsorbDiscovers(counted, entries, x);
    AbsorbFinds(counted, entries, x);
    AbsorbInvalid(counted, entries);
  }

  /** `stats.value`, without the wall-clock minutes. */
  datatype StatsView = StatsView(
    totalQueries: nat,
    hiddenFieldsFound: nat,
    uniqueFieldsCount: nat,
    invalidFieldsAttempted: nat,
    allUniqueFieldsList: seq<string>,
    recentQueries: seq<HistoryEntry>,
    latestQuery: Option<HistoryEntry>)

  /** `h.slice().reverse()`. */
  function Reversed(h: seq<HistoryEntry>): (r: seq<HistoryEntry>)
    ensures |r| == |h|
    ensures forall i :: 0 <= i < |h| ==> r[i] == h[|h| - 1 - i]
  {
    if h == [] then [] else [h[|h| - 1]] + Reversed(h[..|h| - 1])
  }

  /** `h.slice(-5).reverse()`: at most the five newest entries, newest
      first. */
  function Recent(h: seq<HistoryEntry>): (r: seq<HistoryEntry>)
    ensures |r| == if |h| > RecentLimit then RecentLimit else |h|
    ensures forall i :: 0 <= i < |r| ==> r[i] == h[|h| - 1 - i]
  {
    Reversed(if |h| > RecentLimit then h[|h| - RecentLimit..] else h)
  }

  /** `h[h.length - 1]`, `undefined` for an empty history. */
  function Latest(h: seq<HistoryEntry>): (r: Option<HistoryEntry>)
    ensures r.None? <==> h == []
    ensures r.Some? ==> r.value == h[|h| - 1]
  {
    if h == [] then None else Some(h[|h| - 1])
  }

  /** The `stats` view. */
  function View(s: Stats): (r: StatsView)
  {
    StatsView(s.totalQueries, s.hiddenFieldsFound, |s.uniqueFieldsDiscovered|, s.invalidFieldsAttempted,
              s.uniqueFieldsDiscovered, Recent(s.queryHistory), Latest(s.queryHistory))
  }

  /** The `getQueryHistory` view. */
  function QueryHistory(s: Stats): (r: seq<HistoryEntry>)
  {
    Reversed(s.queryHistory)
  }

  /** `achievements.value`, without `persistent` (wall-clock time). */
  datatype Achievements = Achievements(
    firstQuery: bool, explorer: bool, detective: bool, fieldCollector: bool, hiddenMaster: bool)

  function AchievementsOf(v: StatsView): (r: Achievements)
  {
    Achievements(v.totalQueries >= 1, v.totalQueries >= 5, v.hiddenFieldsFound >= 3,
                 v.uniqueFieldsCount >= 15, v.hiddenFieldsFound >= 10)
  }

  /** The recent queries are the head of the full history view, and the
      latest query is the head of both. */
  lemma RecentIsHistoryHead(s: Stats)
    ensures var v := View(s);
      v.recentQueries == QueryHistory(s)[..|v.recentQueries|] &&
      (v.latestQuery.Some? <==> v.recentQueries != []) &&
      (v.latestQuery.Some? ==> v.latestQuery.value == v.recentQueries[0])
  {
  }

  /** After a call, the latest query is the one just tracked. */
  lemma LatestIsTracked(s: Stats, queryStr: string, fieldTypes: Option<FieldTypes>)
    ensures var v := View(Tracked(s, queryStr, fieldTypes));
      v.latestQuery.Some? && v.latestQuery.value.query == queryStr &&
      v.latestQuery.value.totalFieldsRequested == v.uniqueFieldsCount + v.invalidFieldsAttempted
  {
  }

  /** The new history entry is in freestyle mode exactly when the API reads
      its query as a freestyle query. */
  lemma TrackedMode(s: Stats, queryStr: string, fieldTypes: Option<FieldTypes>)
    ensures var h := Tracked(s, queryStr, fieldTypes).queryHistory;
      Mode(h[|h| - 1]) == FreestyleMode <==> ApiExecutor.Parse(queryStr).FreestyleQuery?
  {
    ApiExecutor.FreestyleIff(queryStr);
  }

  /** No call takes an achievement away. */
  lemma {:induction false} AchievementsKept(s: Stats, queryStr: string, fieldTypes: Option<FieldTypes>)
    requires Consistent(s)
    ensures var a, b := AchievementsOf(View(s)), AchievementsOf(View(Tracked(s, queryStr, fieldTypes)));
      (a.firstQuery ==> b.firstQuery) && (a.explorer ==> b.explorer) && (a.detective ==> b.detective) &&
      (a.fieldCollector ==> b.fieldCollector) && (a.hiddenMaster ==> b.hiddenMaster)
  {
    var r, a := Tracked(s, queryStr, fieldTypes), Absorbed(s, fieldTypes);
    assert r.uniqueFieldsDiscovered == a.uniqueFieldsDiscovered &&
           r.foundHiddenFieldNames == a.foundHiddenFieldNames;
    assert |a.uniqueFieldsDiscovered| >= |s.uniqueFieldsDiscovered| &&
           |a.foundHiddenFieldNames| >= |s.foundHiddenFieldNames| by {
      if fieldTypes.Some? {
        AbsorbKeeps(s.(totalQueries := s.totalQueries + 1), fieldTypes.value);
      }
    }
  }

  /** The achievements come in ladders, and none is held before the first
      call. */
  lemma AchievementLadders(s: Stats)
    ensures var a := AchievementsOf(View(s));
      (a.explorer ==> a.firstQuery) && (a.hiddenMaster ==> a.detective)
    ensures AchievementsOf(View(Initial())) == Achievements(false, false, false, false, false)
  {
  }

  /** A reset state is consistent and shows an empty session. */
  lemma InitialView()
    ensures Consistent(Initial())
    ensures View(Initial()) == StatsView(0, 0, 0, 0, [], [], None) && QueryHistory(Initial()) == []
  {
  }

  /** The module-level `graphqlStats` record. */
  class SessionStats {
    var totalQueries: nat
    var hiddenFieldsFound: nat
    var uniqueFieldsDiscovered: seq<string>
    var queryHistory: seq<HistoryEntry>
    var foundHiddenFieldNames: seq<string>
    var invalidFieldsAttempted: nat

    function State(): (r: Stats)
      reads this
    {
      Stats(totalQueries, hiddenFieldsFound, uniqueFieldsDiscovered, queryHistory,
            foundHiddenFieldNames, invalidFieldsAttempted)
    }

    predicate Valid()
      reads this
    {
      Consistent(State())
    }

    constructor()
      ensures State() == Initial() && Valid()
    {
      totalQueries := 0;
      hiddenFieldsFound := 0;
      uniqueFieldsDiscovered := [];
      queryHistory := [];
      foundHiddenFieldNames := [];
      invalidFieldsAttempted := 0;
    }

    /** `trackGraphQLQuery`. */
    method TrackGraphQLQuery(queryStr: string, fieldTypes: Option<FieldTypes>)
      requires Valid()
      modifies this
      ensures State() == Tracked(old(State()), queryStr, fieldTypes)
      ensures Valid()
    {
      ghost var before := State();
      totalQueries := totalQueries + 1;
      if fieldTypes.Some? {
        CountFields(fieldTypes.value);
      }
      assert State() == Absorbed(before, fieldTypes);
      LogQuery(queryStr);
      TrackedConsistent(before, queryStr, fieldTypes);
    }

    /** The end of `trackGraphQLQuery`: the hidden counter, the history entry
        and the cap. */
    method LogQuery(queryStr: string)
      modifies this
      ensures State() == Logged(old(State()), queryStr)
    {
      hiddenFieldsFound := |foundHiddenFieldNames|;
      queryHistory := queryHistory + [HistoryEntry(queryStr, |uniqueFieldsDiscovered| + invalidFieldsAttempted)];
      if |queryHistory| > HistoryLimit {
        queryHistory := queryHistory[|queryHistory| - HistoryLimit..];
      }
    }

    /** The `for...in` loop of `trackGraphQLQuery` over the field types. */
    method CountFields(entries: FieldTypes)
      modifies this
      ensures State() == Absorb(old(State()), entries)
    {
      ghost var start := State();
      for i := 0 to |entries|
        invariant State() == Absorb(start, entries[..i])
      {
        var (fieldPath, fieldType) := entries[i];
        if fieldType == InvalidField {
          invalidFieldsAttempted := invalidFieldsAttempted + 1;
        } else {
          if fieldPath !in uniqueFieldsDiscovered {
            uniqueFieldsDiscovered := uniqueFieldsDiscovered + [fieldPath];
          }
          if fieldType == HiddenField {
            if fieldPath !in foundHiddenFieldNames {
              foundHiddenFieldNames := foundHiddenFieldNames + [fieldPath];
            }
          }
        }
        assert entries[..i + 1][..i] == entries[..i];
      }
      assert entries[..|entries|] == entries;
    }

    /** `resetGraphQLStats`. */
    method ResetGraphQLStats()
      modifies this
      ensures State() == Initial() && Valid()
    {
      totalQueries := 0;
      hiddenFieldsFound := 0;
      uniqueFieldsDiscovered := [];
      queryHistory := [];
      foundHiddenFieldNames := [];
      invalidFieldsAttempted := 0;
    }
  }
}
