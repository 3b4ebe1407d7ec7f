/** The terminal's entry point (`src/terminal/executor.ts`): a blank line
    gets a hint, a special command its handler's answer, `name[]` the
    category, and any other line the fields it names; the final fallback
    reports an invalid format. */
module TerminalExecutor {
  import opened Text
  import opened Values
  import opened Catalog
  import opened FieldTally
  import opened DataManager

  /** `executeTerminalQuery`: the blank check, then the parse, then the
      branches of `Dispatch`. */
  function ExecuteTerminalQuery(p: Portfolio, query: string): (r: TerminalResult)
  {
    if Trim(query) == [] then TerminalResult(Say(TypeHelpHint), Counts(1, 1, 0, 0))
    else Dispatch(p, ParseQuery(query), SpecialResult(query))
  }

  /** The handler's result, asked for special lines only. */
  function SpecialResult(query: string): (r: Option<TerminalResult>)
  {
    if ParseQuery(query).Special? then HandleSpecialCommand(Trim(query)) else None
  }

  /** The branches after the parse: the handler's answer when there is one,
      then the category, then the fields, then the fallback. */
  function Dispatch(p: Portfolio, parsedQuery: TerminalQuery, specialResult: Option<TerminalResult>): (r: TerminalResult)
  {
    if specialResult.Some? then specialResult.value
    else match parsedQuery
      case CategoryCmd(category) =>
        if category != [] then CategoryByName(p, category) else Fallback()
      case FieldsCmd(fields) =>
        if |fields| == 0 then TerminalResult(Say(NoFieldsHint), Counts(0, 1, 0, 0))
        else FieldsByNames(p, fields)
      case Special => Fallback()
  }

  /** The answer when no branch applies. */
  function Fallback(): (r: TerminalResult)
  {
    TerminalResult(Say(InvalidFormat), Counts(0, 0, 0, 1))
  }

  /** The handler is given the trimmed line and lower-cases and trims it
      again: it sees exactly the text `parseQuery` classified. */
  lemma HandlerSeesParsedText(query: string)
    ensures Trim(LowerStr(Trim(query))) == LowerStr(Trim(query))
  {
    TrimLower(Trim(query));
    TrimIdempotent(query);
  }

  /** A line read as a special command is always answered by the handler,
      with one of its actions or theme messages: its `null` never reaches
      the later branches. */
  lemma {:induction false} SpecialAlwaysAnswered(query: string)
    ensures SpecialResult(query).Some? <==> ParseQuery(query).Special?
    ensures SpecialResult(query).Some? ==> HandlerData(SpecialResult(query).value.data)
  {
    var t := LowerStr(Trim(query));
    assert HandleSpecialCommand(Trim(query)) == SpecialAnswer(t) by {
      HandlerSeesParsedText(query);
    }
    assert ParseQuery(query).Special? <==> IsSpecial(t);
  }

  /** What `Dispatch` shows when the handler has answered exactly the
      special lines. */
  lemma {:induction false} DispatchBranches(p: Portfolio, parsedQuery: TerminalQuery, specialResult: Option<TerminalResult>)
    requires specialResult.Some? <==> parsedQuery.Special?
    ensures var r := Dispatch(p, parsedQuery, specialResult);
      (parsedQuery.Special? ==> r == specialResult.value) &&
      (parsedQuery.CategoryCmd? && parsedQuery.category != [] ==> r == CategoryByName(p, parsedQuery.category)) &&
      (parsedQuery.FieldsCmd? && parsedQuery.fields != [] ==> r == FieldsByNames(p, parsedQuery.fields)) &&
      (parsedQuery.FieldsCmd? && parsedQuery.fields == [] ==> r.data == Say(NoFieldsHint)) &&
      (parsedQuery.CategoryCmd? ==> r.data.Fields? || (r.data.Say? && (r.data.notice.UnknownCategory? || r.data.notice.NoData? || r.data.notice.InvalidFormat?))) &&
      (parsedQuery.FieldsCmd? ==> r.data.Fields? || r.data == Say(NoFieldsHint))
  {
  }

  /** Each non-blank line is answered by the branch its reading selects; the
      invalid-format fallback is unreachable, since a category read from
      `name[]` is never empty. */
  lemma {:induction false} Answered(p: Portfolio, query: string)
    requires !AllSpace(query)
    ensures var r := ExecuteTerminalQuery(p, query);
      match ParseQuery(query)
      case Special => HandleSpecialCommand(Trim(query)) == Some(r)
      case CategoryCmd(category) => r == CategoryByName(p, category)
      case FieldsCmd(fields) =>
        r == if fields == [] then TerminalResult(Say(NoFieldsHint), Counts(0, 1, 0, 0)) else FieldsByNames(p, fields)
  {
    var parsed, special := ParseQuery(query), SpecialResult(query);
    assert ExecuteTerminalQuery(p, query) == Dispatch(p, parsed, special) by {
      TrimEmptyIff(query);
    }
    SpecialAlwaysAnswered(query);
    DispatchBranches(p, parsed, special);
    if parsed.Special? {
      assert special == HandleSpecialCommand(Trim(query));
    }
  }

  /** The invalid-format fallback is never shown. */
  lemma {:induction false} NeverFallback(p: Portfolio, query: string)
    ensures ExecuteTerminalQuery(p, query).data != Say(InvalidFormat)
  {
    if !AllSpace(query) {
      var parsed, special := ParseQuery(query), SpecialResult(query);
      assert ExecuteTerminalQuery(p, query) == Dispatch(p, parsed, special) by {
        TrimEmptyIff(query);
      }
      SpecialAlwaysAnswered(query);
      DispatchNotFallback(p, parsed, special);
    }
  }

  /** `Dispatch` reaches no fallback when the handler has answered exactly
      the special lines and a category read is never empty. */
  lemma DispatchNotFallback(p: Portfolio, parsedQuery: TerminalQuery, specialResult: Option<TerminalResult>)
    requires specialResult.Some? <==> parsedQuery.Special?
    requires specialResult.Some? ==> HandlerData(specialResult.value.data)
    requires parsedQuery.CategoryCmd? ==> parsedQuery.category != []
    ensures Dispatch(p, parsedQuery, specialResult).data != Say(InvalidFormat)
  {
  }

  /** The "type help" hint is shown exactly for blank lines. */
  lemma {:induction false} BlankHintIff(p: Portfolio, query: string)
    ensures ExecuteTerminalQuery(p, query).data == Say(TypeHelpHint) <==> AllSpace(query)
  {
    TrimEmptyIff(query);
    if !AllSpace(query) {
      SpecialAlwaysAnswered(query);
      DispatchBranches(p, ParseQuery(query), SpecialResult(query));
    }
  }

  /** The "no fields" hint is shown exactly for a non-blank line that is
      neither special nor `name[]` and names no field (such as `,,`). */
  lemma {:induction false} NoFieldsHintIff(p: Portfolio, query: string)
    ensures ExecuteTerminalQuery(p, query).data == Say(NoFieldsHint) <==>
              !AllSpace(query) && ParseQuery(query) == FieldsCmd([])
  {
    TrimEmptyIff(query);
    if !AllSpace(query) {
      SpecialAlwaysAnswered(query);
      DispatchBranches(p, ParseQuery(query), SpecialResult(query));
    }
  }

  /** Whenever the terminal shows field values, its counters add up to the
      number of fields asked for or shown. */
  lemma {:induction false} ShownCountsAddUp(p: Portfolio, query: string)
    ensures var r := ExecuteTerminalQuery(p, query);
      r.data.Fields? ==>
        r.metadata.validFields + r.metadata.hiddenFields + r.metadata.invalidFields == r.metadata.totalFields
  {
    TrimEmptyIff(query);
    if !AllSpace(query) {
      Answered(p, query);
      SpecialAlwaysAnswered(query);
      if ParseQuery(query).FieldsCmd? {
        FieldsByNamesCounts(p, ParseQuery(query).fields);
      }
    }
  }

  /** `executeTerminalQuery` as the module is written: the handler's
      rejection for theme commands propagates, since the call is awaited
      without a `catch`. */
  function ExecuteTerminalQueryAsWritten(p: Portfolio, query: string): (r: Outcome<TerminalResult>)
  {
    var normal := ExecuteTerminalQuery(p, query);
    if Trim(query) != [] && ParseQuery(query).Special? then Propagated(HandleSpecialCommandAsWritten(Trim(query)), normal)
    else Returned(normal)
  }

  /** An awaited call without a `catch`: the handler's error passes through,
      otherwise the terminal's answer is returned. */
  function Propagated(handled: Outcome<Option<TerminalResult>>, normal: TerminalResult): (r: Outcome<TerminalResult>)
    ensures r.Raised? <==> handled.Raised?
    ensures r.Returned? ==> r.value == normal
  {
    match handled
    case Raised(e) => Raised(e)
    case Returned(_) => Returned(normal)
  }

  /** Where the terminal as written returns, it returns what the corrected
      terminal does. */
  lemma AsWrittenAgrees(p: Portfolio, query: string)
    ensures ExecuteTerminalQueryAsWritten(p, query).Returned? ==>
              ExecuteTerminalQueryAsWritten(p, query).value == ExecuteTerminalQuery(p, query)
  {
  }

  /** In the terminal as written, `theme <name>` fails for every lower-case
      name without white space, known themes included. */
  lemma {:induction false} TerminalThemeRaises(p: Portfolio, name: string)
    requires name != [] && NoSpace(name) && LowerStr(name) == name
    ensures ExecuteTerminalQueryAsWritten(p, "theme " + name).Raised?
  {
    ThemeLineSpecial(name);
    assert HandleSpecialCommandAsWritten("theme " + name).Raised? by {
      ThemeCommandRaises(name);
    }
    RaisedPropagates(p, "theme " + name);
  }

  /** `theme <name>` is already trimmed and is read as a special command. */
  lemma {:induction false} ThemeLineSpecial(name: string)
    requires name != [] && NoSpace(name) && LowerStr(name) == name
    ensures var query := "theme " + name;
      Trim(query) == query && query != [] && ParseQuery(query).Special?
  {
    var query := "theme " + name;
    assert Trimmed(query) && LowerStr(query) == query by {
      SpacedName(" ", name);
      ThemeCommandText(" " + name);
      OneSpaceText(name);
    }
    assert |query| >= 5 && query[..5] == "theme";
    NormalisedThemeLine(query);
  }

  /** A trimmed, lower-case line starting with `theme` is read as special. */
  lemma NormalisedThemeLine(query: string)
    requires Trimmed(query) && LowerStr(query) == query
    requires |query| >= 5 && query[..5] == "theme"
    ensures Trim(query) == query && query != [] && ParseQuery(query).Special?
  {
    TrimOfTrimmed(query);
  }

  /** A special line whose handler raises makes the terminal raise. */
  lemma RaisedPropagates(p: Portfolio, query: string)
    requires Trim(query) == query && query != [] && ParseQuery(query).Special?
    requires HandleSpecialCommandAsWritten(query).Raised?
    ensures ExecuteTerminalQueryAsWritten(p, query).Raised?
  {
  }
}
