/** The query language of the API executor, as its three regular
    expressions read it: the optional leading `query` keyword
    (the pattern `^query\s*`), the freestyle form `^\{\s*([^{}]+)\s*\}$` and the
    category form `\{\s*(\w+)\s*\{([^}]*)\}`, which is searched for anywhere
    in the query. Each pattern is restated as the function that computes its
    match, and the category form is also given as the declarative reading of
    the pattern, with a lemma that the two agree. */
module QuerySyntax {
  import opened Text
  import opened Split
  import opened Values

  /** The leading `query` keyword and the white space after it removed
      (`replace` with the pattern `^query\s*`), then `trim`. */
  function Clean(q: string): (r: string)
    ensures Trimmed(r)
  {
    Trim(if StartsWith(q, "query") then TrimStart(q[5..]) else q)
  }

  predicate BraceFree(s: string)
  {
    '{' !in s && '}' !in s
  }

  /** What lies between the outer braces. */
  function Interior(q: string): (r: string)
    requires |q| >= 2
  {
    q[1..|q| - 1]
  }

  /** `/^\{\s*[^{}]+\s*\}$/.test(q)`: a brace, a non-empty brace-free
      interior, a brace, and nothing else. */
  predicate FreestyleShape(q: string)
  {
    |q| >= 3 && q[0] == '{' && q[|q| - 1] == '}' && BraceFree(Interior(q))
  }

  /** `isFreestyleQuery` of the statistics composable. */
  predicate IsFreestyleQuery(query: string)
  {
    FreestyleShape(Clean(query))
  }

  /** Capture group 1 of the freestyle pattern on `{<interior>}`: the greedy
      `\s*` takes the leading white space, but has to give back the last
      character when the interior is white space only, since `[^{}]+` needs
      at least one. */
  function FreestyleGroup(interior: string): (g: string)
    requires interior != []
    ensures 0 < |g| <= |interior| && interior == interior[..|interior| - |g|] + g
    ensures AllSpace(interior[..|interior| - |g|])
  {
    if AllSpace(interior) then interior[|interior| - 1..] else TrimStart(interior)
  }

  /** The fields of a freestyle query: `freestyleMatch[1].trim().split(/\s+/).filter(Boolean)`,
      or `None` when the pattern does not match. */
  function FreestyleFields(q: string): (r: Option<seq<string>>)
    ensures r.Some? <==> FreestyleShape(q)
  {
    if FreestyleShape(q) then Some(Words(Trim(FreestyleGroup(Interior(q))))) else None
  }

  /** The fields of a freestyle query are the words between its braces. */
  lemma FreestyleFieldsAreWords(q: string)
    requires FreestyleShape(q)
    ensures FreestyleFields(q) == Some(Words(Interior(q)))
  {
    var interior := Interior(q);
    var g := FreestyleGroup(interior);
    var pre := interior[..|interior| - |g|];
    calc {
      Words(Trim(g));
      { WordsTrim(g); }
      Words(g);
      { WordsSpacePrefix(pre, g); }
      Words(pre + g);
      Words(interior);
    }
  }

  /** The two capture groups of the category pattern. */
  datatype CategoryMatch = CategoryMatch(category: string, body: string)

  predicate AllWordChars(s: string)
  {
    forall i :: 0 <= i < |s| ==> IsWordChar(s[i])
  }

  /** Where a greedy `\s*` starting at `k` stops. */
  function SkipSpace(q: string, k: nat): (r: nat)
    requires k <= |q|
    ensures k <= r <= |q| && AllSpace(q[k..r])
    ensures r < |q| ==> !IsSpace(q[r])
    decreases |q| - k
  {
    if k == |q| || !IsSpace(q[k]) then k
    else
      var r := SkipSpace(q, k + 1);
      assert q[k..r] == [q[k]] + q[k + 1..r];
      r
  }

  /** Where a greedy `\w*` starting at `k` stops. */
  function WordEnd(q: string, k: nat): (r: nat)
    requires k <= |q|
    ensures k <= r <= |q| && AllWordChars(q[k..r])
    ensures r < |q| ==> !IsWordChar(q[r])
    decreases |q| - k
  {
    if k == |q| || !IsWordChar(q[k]) then k
    else
      var r := WordEnd(q, k + 1);
      assert q[k..r] == [q[k]] + q[k + 1..r];
      r
  }

  /** The index of the first `}` at or after `k`, if any. */
  function CloseFrom(q: string, k: nat): (r: Option<nat>)
    requires k <= |q|
    ensures r.Some? ==> k <= r.value < |q| && q[r.value] == '}' && '}' !in q[k..r.value]
    ensures r.None? ==> '}' !in q[k..]
    decreases |q| - k
  {
    if k == |q| then None
    else if q[k] == '}' then Some(k)
    else
      var r := CloseFrom(q, k + 1);
      assert r.Some? ==> q[k..r.value] == [q[k]] + q[k + 1..r.value];
      assert q[k..] == [q[k]] + q[k + 1..];
      r
  }

  /** The category pattern tried at index `i`. Every quantifier in it meets a
      character it cannot consume, so the match there is the greedy one:
      `{`, white space, the longest run of word characters (at least one),
      white space, `{`, everything up to the first `}`, and that `}`. */
  function CategoryMatchAt(q: string, i: nat): (r: Option<CategoryMatch>)
    ensures r.Some? ==> r.value.category != [] && AllWordChars(r.value.category) && '}' !in r.value.body
  {
    if i >= |q| || q[i] != '{' then None
    else
      var a := SkipSpace(q, i + 1);
      var c := WordEnd(q, a);
      if c == a then None
      else
        var b := SkipSpace(q, c);
        if b == |q| || q[b] != '{' then None
        else
          match CloseFrom(q, b + 1)
          case None => None
          case Some(e) => Some(CategoryMatch(q[a..c], q[b + 1..e]))
  }

  /** The leftmost index from `from` on where the category pattern matches. */
  function FirstCategoryIndex(q: string, from: nat): (r: Option<nat>)
    ensures r.Some? ==> from <= r.value < |q| && CategoryMatchAt(q, r.value).Some?
    ensures r.Some? ==> forall j :: from <= j < r.value ==> CategoryMatchAt(q, j).None?
    ensures r.None? ==> forall j :: from <= j < |q| ==> CategoryMatchAt(q, j).None?
    decreases |q| - from
  {
    if from >= |q| then None
    else if CategoryMatchAt(q, from).Some? then Some(from)
    else FirstCategoryIndex(q, from + 1)
  }

  /** `q.match(/\{\s*(\w+)\s*\{([^}]*)\}/)`: the groups of the leftmost match. */
  function FindCategoryMatch(q: string): (r: Option<CategoryMatch>)
    ensures r.Some? <==> exists i :: 0 <= i < |q| && CategoryMatchAt(q, i).Some?
  {
    match FirstCategoryIndex(q, 0)
    case Some(i) => CategoryMatchAt(q, i)
    case None => None
  }

  /** The category pattern read declaratively: at index `i` the query
      continues with `{`, white space, the category (one or more word
      characters), white space, `{`, a body without `}`, and `}`. */
  predicate MatchesAt(q: string, i: nat, ws1: string, category: string, ws2: string, body: string)
  {
    i <= |q| && AllSpace(ws1) && AllSpace(ws2) && category != [] && AllWordChars(category) && '}' !in body &&
    StartsWith(q[i..], "{" + ws1 + category + ws2 + "{" + body + "}")
  }

  /** The greedy match at `i` is a match in the declarative sense ... */
  lemma {:induction false} CategoryMatchSound(q: string, i: nat)
    requires CategoryMatchAt(q, i).Some?
    ensures exists ws1, ws2 :: MatchesAt(q, i, ws1, CategoryMatchAt(q, i).value.category, ws2,
                                         CategoryMatchAt(q, i).value.body)
  {
    var m := CategoryMatchAt(q, i).value;
    var a := SkipSpace(q, i + 1);
    var c := WordEnd(q, a);
    var b := SkipSpace(q, c);
    var e := CloseFrom(q, b + 1).value;
    PiecesMatch(q, i, q[i + 1..a], m.category, q[c..b], m.body);
  }

  /** The pieces laid end to end from `i` on form a match. */
  lemma PiecesMatch(q: string, i: nat, ws1: string, category: string, ws2: string, body: string)
    requires i + |ws1| + |category| + |ws2| + |body| + 3 <= |q|
    requires AllSpace(ws1) && AllSpace(ws2) && category != [] && AllWordChars(category) && '}' !in body
    requires q[i] == '{' && q[i + 1..i + 1 + |ws1|] == ws1
    requires q[i + 1 + |ws1|..i + 1 + |ws1| + |category|] == category
    requires q[i + 1 + |ws1| + |category|..i + 1 + |ws1| + |category| + |ws2|] == ws2
    requires q[i + 1 + |ws1| + |category| + |ws2|] == '{'
    requires q[i + 2 + |ws1| + |category| + |ws2|..i + 2 + |ws1| + |category| + |ws2| + |body|] == body
    requires q[i + 2 + |ws1| + |category| + |ws2| + |body|] == '}'
    ensures MatchesAt(q, i, ws1, category, ws2, body)
  {
    var p0: string := "{";
    var p1 := p0 + ws1;
    var p2 := p1 + category;
    var p3 := p2 + ws2;
    var p4 := p3 + "{";
    var p5 := p4 + body;
    var p6 := p5 + "}";
    assert q[i..i + |p0|] == p0;
    JoinSlices(q, i, p0, ws1);
    JoinSlices(q, i, p1, category);
    JoinSlices(q, i, p2, ws2);
    assert q[i + |p3|..i + |p3| + 1] == "{";
    JoinSlices(q, i, p3, "{");
    JoinSlices(q, i, p4, body);
    assert q[i + |p5|..i + |p5| + 1] == "}";
    JoinSlices(q, i, p5, "}");
    assert q[i..][..|p6|] == q[i..i + |p6|];
  }

  /** ... and the only one: any declarative match at `i` is the greedy one. */
  lemma {:induction false} CategoryMatchComplete(q: string, i: nat, ws1: string, category: string, ws2: string, body: string)
    requires MatchesAt(q, i, ws1, category, ws2, body)
    ensures CategoryMatchAt(q, i) == Some(CategoryMatch(category, body))
  {
    var a := i + 1 + |ws1|;
    var c := a + |category|;
    var b := c + |ws2|;
    var e := b + 1 + |body|;
    MatchPieces(q, i, ws1, category, ws2, body);
    assert q[a] == category[0];
    SkipSpaceTo(q, i + 1, a);
    WordEndTo(q, a, c);
    SkipSpaceTo(q, c, b);
    CloseFromTo(q, b + 1, e);
  }

  /** A match, cut back into its pieces. */
  lemma MatchPieces(q: string, i: nat, ws1: string, category: string, ws2: string, body: string)
    requires MatchesAt(q, i, ws1, category, ws2, body)
    ensures i + |ws1| + |category| + |ws2| + |body| + 3 <= |q|
    ensures q[i] == '{' && q[i + 1..i + 1 + |ws1|] == ws1
    ensures q[i + 1 + |ws1|..i + 1 + |ws1| + |category|] == category
    ensures q[i + 1 + |ws1| + |category|..i + 1 + |ws1| + |category| + |ws2|] == ws2
    ensures q[i + 1 + |ws1| + |category| + |ws2|] == '{'
    ensures q[i + 2 + |ws1| + |category| + |ws2|..i + 2 + |ws1| + |category| + |ws2| + |body|] == body
    ensures q[i + 2 + |ws1| + |category| + |ws2| + |body|] == '}'
  {
    var p0: string := "{";
    var p1 := p0 + ws1;
    var p2 := p1 + category;
    var p3 := p2 + ws2;
    var p4 := p3 + "{";
    var p5 := p4 + body;
    var p6 := p5 + "}";
    assert q[i..i + |p6|] == p6 by {
      assert q[i..][..|p6|] == q[i..i + |p6|];
    }
    SplitSlices(q, i, p5, "}");
    SplitSlices(q, i, p4, body);
    SplitSlices(q, i, p3, "{");
    SplitSlices(q, i, p2, ws2);
    SplitSlices(q, i, p1, category);
    SplitSlices(q, i, p0, ws1);
    assert q[i] == q[i..i + 1][0];
    assert q[i + |p3|] == q[i + |p3|..i + |p4|][0];
    assert q[i + |p5|] == q[i + |p5|..i + |p6|][0];
  }

  /** White space from `k` to `r` followed by something else is where `\s*` stops. */
  lemma {:induction false} SkipSpaceTo(q: string, k: nat, r: nat)
    requires k <= r < |q| && AllSpace(q[k..r]) && !IsSpace(q[r])
    ensures SkipSpace(q, k) == r
    decreases r - k
  {
    if k < r {
      assert IsSpace(q[k..r][0]);
      assert q[k + 1..r] == q[k..r][1..];
      SkipSpaceTo(q, k + 1, r);
    }
  }

  lemma {:induction false} WordEndTo(q: string, k: nat, r: nat)
    requires k <= r < |q| && AllWordChars(q[k..r]) && !IsWordChar(q[r])
    ensures WordEnd(q, k) == r
    decreases r - k
  {
    if k < r {
      assert IsWordChar(q[k..r][0]);
      assert q[k + 1..r] == q[k..r][1..];
      WordEndTo(q, k + 1, r);
    }
  }

  lemma {:induction false} CloseFromTo(q: string, k: nat, r: nat)
    requires k <= r < |q| && '}' !in q[k..r] && q[r] == '}'
    ensures CloseFrom(q, k) == Some(r)
    decreases r - k
  {
    if k < r {
      assert q[k] == q[k..r][0];
      assert q[k + 1..r] == q[k..r][1..];
      CloseFromTo(q, k + 1, r);
    }
  }

  lemma JoinSlices(s: string, x: nat, u: string, v: string)
    requires x + |u| + |v| <= |s| && s[x..x + |u|] == u && s[x + |u|..x + |u| + |v|] == v
    ensures s[x..x + |u + v|] == u + v
  {
  }

  lemma SplitSlices(s: string, x: nat, u: string, v: string)
    requires x + |u| + |v| <= |s| && s[x..x + |u| + |v|] == u + v
    ensures s[x..x + |u|] == u && s[x + |u|..x + |u| + |v|] == v
  {
    assert s[x..x + |u|] == s[x..x + |u| + |v|][..|u|];
    assert s[x + |u|..x + |u| + |v|] == s[x..x + |u| + |v|][|u|..];
  }
}
