/** The terminal's data manager (`src/terminal/dataManager.ts`): reading a
    command line (`parseQuery`, `parseFields`), the special commands
    (`handleSpecialCommand`), the lookup of fields by name across every
    category (`getFieldsByNames`), a whole category (`getCategoryByName`),
    and the field lists of the fields modal (`getAvailableFields`,
    `getFieldsByCategory`). Alias resolution, the global lookup and the
    category data are the ones of `Catalog`, taken in the terminal's
    category order with the source tag `extra`. */
module DataManager {
  import opened Text
  import opened Split
  import opened Values
  import opened Catalog
  import opened FieldTally
  import opened StringOrder
  import DataService

  /** `AVAILABLE_THEMES` of the terminal configuration. */
  const AvailableThemes: seq<string> := ["matrix", "dracula", "monokai", "cyberpunk", "minimal"]

  /** The commands `parseQuery` recognises by their whole text. */
  const SpecialWords: seq<string> := ["help", "clear", "fields"]

  /** The three readings of a command line. */
  datatype TerminalQuery = Special | CategoryCmd(category: string) | FieldsCmd(fields: seq<string>)

  /** A trimmed, lower-cased command line names a special command. */
  predicate IsSpecial(cmd: string)
  {
    cmd in SpecialWords || StartsWith(cmd, "theme")
  }

  /** `parseQuery`: a special command first, then `category[]`, otherwise a
      list of field names. */
  function ParseQuery(query: string): (r: TerminalQuery)
    ensures r.Special? <==> IsSpecial(LowerStr(Trim(query)))
    ensures r.CategoryCmd? ==> r.category != []
    ensures r.FieldsCmd? ==> forall i :: 0 <= i < |r.fields| ==> FieldName(r.fields[i])
  {
    var trimmed := Trim(query);
    if IsSpecial(LowerStr(trimmed)) then Special
    else if EndsWith(trimmed, "[]") && |trimmed| > 2 then CategoryCmd(LowerStr(trimmed[..|trimmed| - 2]))
    else FieldsCmd(ParseFields(trimmed))
  }

  /** A name `parseFields` can produce: non-empty, trimmed, comma-free. */
  predicate FieldName(s: string)
  {
    s != [] && Trimmed(s) && ',' !in s
  }

  /** `parseFields`: split at every comma when there is one, otherwise at
      runs of white space; each piece trimmed and empty pieces dropped. */
  function ParseFields(query: string): (r: seq<string>)
    ensures forall i :: 0 <= i < |r| ==> FieldName(r[i])
  {
    if ',' in query then TrimmedPieces(SplitOn(query, ','))
    else
      var ws := Words(query);
      assert forall i :: 0 <= i < |ws| ==> FieldName(ws[i]) by {
        forall i | 0 <= i < |ws| ensures FieldName(ws[i]) { NotInWord(query, ws, i); }
      }
      ws
  }

  /** `pieces.map(p => p.trim()).filter(Boolean)`. */
  function TrimmedPieces(pieces: seq<string>): (r: seq<string>)
    requires forall i :: 0 <= i < |pieces| ==> ',' !in pieces[i]
    ensures forall i :: 0 <= i < |r| ==> FieldName(r[i])
  {
    if pieces == [] then []
    else
      var t := Trim(pieces[0]);
      TrimKeepsOut(pieces[0], ',');
      assert forall i :: 0 <= i < |pieces| - 1 ==> pieces[1..][i] == pieces[i + 1];
      var rest := TrimmedPieces(pieces[1..]);
      if t == [] then rest
      else
        assert FieldName(t);
        PrependName(t, rest);
        [t] + rest
  }

  lemma PrependName(t: string, rest: seq<string>)
    requires FieldName(t) && forall i :: 0 <= i < |rest| ==> FieldName(rest[i])
    ensures forall i :: 0 <= i < |[t] + rest| ==> FieldName(([t] + rest)[i])
  {
    var r := [t] + rest;
    assert forall i :: 0 < i < |r| ==> r[i] == rest[i - 1];
  }

  /** Trimming adds no character. */
  lemma TrimKeepsOut(s: string, c: char)
    requires c !in s
    ensures c !in Trim(s)
  {
    var a := TrimStart(s);
    assert s == s[..|s| - |a|] + a;
    assert c !in a;
    var b := TrimEnd(a);
    assert a == b + a[|b|..];
  }

  /** A word of a comma-free line is a field name. */
  lemma NotInWord(query: string, ws: seq<string>, i: int)
    requires ',' !in query && ws == Words(query) && 0 <= i < |ws|
    ensures FieldName(ws[i])
  {
    WordsFrom(query, ',');
  }

  /** Every character of every word occurs in the line. */
  lemma {:induction false} WordsFrom(s: string, c: char)
    requires c !in s
    ensures forall i :: 0 <= i < |Words(s)| ==> c !in Words(s)[i]
    decreases |s|
  {
    if s != [] {
      if IsSpace(s[0]) {
        WordsFrom(s[1..], c);
      } else {
        var n := WordLength(s);
        assert c !in s[..n];
        WordsFrom(s[n..], c);
      }
    }
  }

  /** Characters absent from the pieces and the separator are absent from
      the joined string. */
  lemma {:induction false} NotInJoin(parts: seq<string>, sep: string, c: char)
    requires c !in sep
    requires forall i :: 0 <= i < |parts| ==> c !in parts[i]
    ensures c !in Join(parts, sep)
  {
    if |parts| > 1 {
      NotInJoin(parts[1..], sep, c);
    }
  }

  /** Pieces that are already trimmed and non-empty are kept as they are. */
  lemma {:induction false} TrimmedPiecesKeep(pieces: seq<string>)
    requires forall i :: 0 <= i < |pieces| ==> pieces[i] != [] && Trimmed(pieces[i]) && ',' !in pieces[i]
    ensures TrimmedPieces(pieces) == pieces
  {
    if pieces != [] {
      TrimOfTrimmed(pieces[0]);
      TrimmedPiecesKeep(pieces[1..]);
      assert pieces == [pieces[0]] + pieces[1..];
    }
  }

  /** Two or more names, each trimmed, non-empty and comma-free (inner
      spaces allowed), written with commas between them are read back as
      the same names. */
  lemma {:induction false} CommaListRoundTrip(names: seq<string>)
    requires |names| >= 2
    requires forall i :: 0 <= i < |names| ==> names[i] != [] && Trimmed(names[i]) && ',' !in names[i]
    ensures ParseFields(Join(names, ",")) == names
  {
    var s := Join(names, ",");
    assert ',' in s by {
      assert s == names[0] + "," + Join(names[1..], ",");
      assert s[|names[0]|] == ',';
    }
    SplitOnJoin(names, ',');
    TrimmedPiecesKeep(names);
  }

  /** Names without white space or commas, written with single spaces
      between them, are read back as the same names. */
  lemma {:induction false} SpaceListRoundTrip(names: seq<string>)
    requires forall i :: 0 <= i < |names| ==> names[i] != [] && NoSpace(names[i]) && ',' !in names[i]
    ensures ParseFields(Join(names, " ")) == names
  {
    NotInJoin(names, " ", ',');
    WordsJoin(names, " ");
  }

  /** `name[]` (after trimming) is a category command for the lower-cased
      name, unless the name itself starts a theme command. */
  lemma {:induction false} CategorySyntax(query: string, name: string)
    requires Trim(query) == name + "[]" && name != []
    requires !StartsWith(LowerStr(name), "theme")
    ensures ParseQuery(query) == CategoryCmd(LowerStr(name))
  {
    var trimmed := name + "[]";
    BracketsNotSpecial(name);
    assert EndsWith(trimmed, "[]") by {
      assert trimmed[|trimmed| - 2..] == "[]";
    }
    assert trimmed[..|trimmed| - 2] == name;
  }

  /** `name[]` is not a special command when the name does not start one. */
  lemma BracketsNotSpecial(name: string)
    requires name != [] && !StartsWith(LowerStr(name), "theme")
    ensures !IsSpecial(LowerStr(name + "[]"))
  {
    var trimmed := name + "[]";
    var low := LowerStr(trimmed);
    assert low[|low| - 1] == ']';
    assert low !in SpecialWords;
    if |name| >= 5 {
      forall i | 0 <= i < 5 ensures LowerStr(name)[i] == low[i] {
        assert trimmed[i] == name[i];
      }
      assert low[..5] == LowerStr(name)[..5];
    } else {
      assert low[|name|] == '[';
      assert "theme"[|name|] != '[';
    }
  }

  /** What the terminal is told to do. */
  datatype Action = Clear | ShowHelp | ShowFieldsModal | SwitchTheme(theme: string)

  /** The messages of the terminal, by what they say. */
  datatype Notice =
    | ThemeList
    | UnknownTheme(theme: string)
    | UnknownCategory(category: string)
    | NoData(category: string)
    | TypeHelpHint
    | NoFieldsHint
    | InvalidFormat

  /** The `data` of a `TerminalResult`: field values, an action or a message. */
  datatype Answer = Fields(values: map<string, Value>) | Act(action: Action) | Say(notice: Notice)

  datatype TerminalResult = TerminalResult(data: Answer, metadata: Metadata)

  /** `cmd.split(' ')[1]`; a missing second piece is the empty string (both
      are falsy). */
  function ThemeArgument(cmd: string): (r: string)
  {
    var parts := SplitOn(cmd, ' ');
    if |parts| > 1 then parts[1] else []
  }

  /** The answer of the theme branch for the argument `themeName`. */
  function ThemeAnswer(themeName: string): (r: TerminalResult)
  {
    if themeName == [] then TerminalResult(Say(ThemeList), Counts(1, 1, 0, 0))
    else if themeName in AvailableThemes then TerminalResult(Act(SwitchTheme(themeName)), Counts(1, 1, 0, 0))
    else TerminalResult(Say(UnknownTheme(themeName)), Counts(1, 0, 0, 1))
  }

  /** The branches of `handleSpecialCommand` on the trimmed, lower-cased
      command; `None` is its `null`. Every answer counts one field as valid
      or invalid. */
  function SpecialAnswer(cmd: string): (r: Option<TerminalResult>)
    ensures r.Some? <==> IsSpecial(cmd)
    ensures r.Some? ==> r.value.metadata.hiddenFields == 0 &&
                        r.value.metadata.validFields + r.value.metadata.invalidFields == 1
    ensures r.Some? ==> HandlerData(r.value.data)
  {
    if cmd == "clear" then Some(TerminalResult(Act(Clear), Counts(0, 1, 0, 0)))
    else if cmd == "help" then Some(TerminalResult(Act(ShowHelp), Counts(1, 1, 0, 0)))
    else if cmd == "fields" then Some(TerminalResult(Act(ShowFieldsModal), Counts(0, 1, 0, 0)))
    else if StartsWith(cmd, "theme") then Some(ThemeAnswer(ThemeArgument(cmd)))
    else None
  }

  /** What the handler can answer: an action, the theme list or an unknown
      theme. */
  predicate HandlerData(d: Answer)
  {
    d.Act? || d == Say(ThemeList) || (d.Say? && d.notice.UnknownTheme?)
  }

  /** `handleSpecialCommand`, with the theme list read as a value. */
  function HandleSpecialCommand(command: string): (r: Option<TerminalResult>)
    ensures r.Some? <==> IsSpecial(Trim(LowerStr(command)))
  {
    SpecialAnswer(Trim(LowerStr(command)))
  }

  /** A command that is already trimmed and lower-case is answered as
      written. */
  lemma Normalised(command: string)
    requires Trimmed(command) && LowerStr(command) == command
    ensures HandleSpecialCommand(command) == SpecialAnswer(command)
  {
    TrimOfTrimmed(command);
  }

  /** `theme` followed by anything is a theme command. */
  lemma {:induction false} ThemeLine(rest: string)
    ensures SpecialAnswer("theme" + rest) == Some(ThemeAnswer(ThemeArgument("theme" + rest)))
  {
    var cmd := "theme" + rest;
    assert cmd[0] == 't';
    assert cmd[..5] == "theme";
  }

  /** A lower-case name without white space has no lower-case change and
      no space. */
  lemma NameChars(name: string)
    requires NoSpace(name) && LowerStr(name) == name
    ensures forall i :: 0 <= i < |name| ==> Lower(name[i]) == name[i]
    ensures ' ' !in name
  {
    forall i | 0 <= i < |name| ensures Lower(name[i]) == name[i] {
      assert LowerStr(name)[i] == Lower(name[i]);
    }
  }

  /** `theme` followed by lower-case text that does not end in white space
      is already trimmed and lower-case. */
  lemma {:induction false} ThemeCommandText(rest: string)
    requires forall i :: 0 <= i < |rest| ==> Lower(rest[i]) == rest[i]
    requires rest == [] || !IsSpace(rest[|rest| - 1])
    ensures Trimmed("theme" + rest) && LowerStr("theme" + rest) == "theme" + rest
  {
    var cmd := "theme" + rest;
    forall i | 0 <= i < |cmd| ensures Lower(cmd[i]) == cmd[i] {
      if i >= 5 {
        assert cmd[i] == rest[i - 5];
      }
    }
    assert cmd[0] == 't';
    if rest != [] {
      assert cmd[|cmd| - 1] == rest[|rest| - 1];
    }
  }

  /** Spaces followed by a lower-case name without white space. */
  lemma {:induction false} SpacedName(sep: string, name: string)
    requires forall i :: 0 <= i < |sep| ==> sep[i] == ' '
    requires name != [] && NoSpace(name) && LowerStr(name) == name
    ensures var rest := sep + name;
      (forall i :: 0 <= i < |rest| ==> Lower(rest[i]) == rest[i]) && !IsSpace(rest[|rest| - 1])
  {
    NameChars(name);
    var rest := sep + name;
    forall i | 0 <= i < |rest| ensures Lower(rest[i]) == rest[i] {
      if i >= |sep| {
        assert rest[i] == name[i - |sep|];
      } else {
        assert rest[i] == sep[i];
      }
    }
    assert rest[|rest| - 1] == name[|name| - 1];
  }

  /** `theme <name>` with one space switches to a known theme and reports
      any other name as invalid. */
  lemma {:induction false} ThemeCommand(name: string)
    requires name != [] && NoSpace(name) && LowerStr(name) == name
    ensures name in AvailableThemes ==>
              HandleSpecialCommand("theme " + name) == Some(TerminalResult(Act(SwitchTheme(name)), Counts(1, 1, 0, 0)))
    ensures name !in AvailableThemes ==>
              HandleSpecialCommand("theme " + name) == Some(TerminalResult(Say(UnknownTheme(name)), Counts(1, 0, 0, 1)))
  {
    var rest := " " + name;
    var cmd := "theme" + rest;
    assert HandleSpecialCommand(cmd) == Some(ThemeAnswer(name)) by {
      SpacedName(" ", name);
      ThemeCommandText(rest);
      Normalised(cmd);
      ThemeLine(rest);
      NameChars(name);
      OneSpaceArgument(name);
    }
    OneSpaceText(name);
    if name in AvailableThemes {
      assert ThemeAnswer(name) == TerminalResult(Act(SwitchTheme(name)), Counts(1, 1, 0, 0));
    }
  }

  lemma OneSpaceText(name: string)
    ensures "theme" + (" " + name) == "theme " + name
  {
    var a, b := "theme" + (" " + name), "theme " + name;
    forall i | 0 <= i < |a| ensures a[i] == b[i] {
      if i >= 6 { assert a[i] == name[i - 6] == b[i]; }
    }
  }

  lemma TwoSpaceText(name: string)
    ensures "theme" + ("  " + name) == "theme  " + name
  {
    var a, b := "theme" + ("  " + name), "theme  " + name;
    forall i | 0 <= i < |a| ensures a[i] == b[i] {
      if i >= 7 { assert a[i] == name[i - 7] == b[i]; }
    }
  }

  lemma OneSpaceArgument(name: string)
    requires ' ' !in name
    ensures ThemeArgument("theme" + (" " + name)) == name
  {
    ThemeWord();
    SplitAfter("theme", name, ' ');
    assert "theme" + [' '] + name == "theme" + (" " + name);
    assert SplitOn(name, ' ') == [name];
  }

  /** With two spaces before the name, `split(' ')` yields an empty second
      piece, so the command only lists the themes. */
  lemma {:induction false} DoubleSpaceListsThemes(name: string)
    requires name != [] && NoSpace(name) && LowerStr(name) == name
    ensures HandleSpecialCommand("theme  " + name) == Some(TerminalResult(Say(ThemeList), Counts(1, 1, 0, 0)))
  {
    var rest := "  " + name;
    var cmd := "theme" + rest;
    assert HandleSpecialCommand(cmd) == Some(ThemeAnswer([])) by {
      SpacedName("  ", name);
      ThemeCommandText(rest);
      Normalised(cmd);
      ThemeLine(rest);
      TwoSpaceArgument(name);
    }
    TwoSpaceText(name);
  }

  lemma TwoSpaceArgument(name: string)
    ensures ThemeArgument("theme" + ("  " + name)) == []
  {
    ThemeWord();
    assert "theme" + ("  " + name) == "theme" + [' '] + ([' '] + name);
    DoubledSeparator("theme", name, ' ');
  }

  /** Two separators in a row after a separator-free head leave an empty second piece. */
  lemma DoubledSeparator(a: string, b: string, c: char)
    requires c !in a
    ensures SplitOn(a + [c] + ([c] + b), c)[1] == []
  {
    SplitAfter(a, [c] + b, c);
    SplitAfter([], b, c);
    assert [] + [c] + b == [c] + b;
  }

  /** A name glued to `theme` (`themedark`, or `theme` alone) leaves no
      second piece, so the command only lists the themes. */
  lemma {:induction false} GluedNameListsThemes(name: string)
    requires NoSpace(name) && LowerStr(name) == name
    ensures HandleSpecialCommand("theme" + name) == Some(TerminalResult(Say(ThemeList), Counts(1, 1, 0, 0)))
  {
    var cmd := "theme" + name;
    NameChars(name);
    ThemeCommandText(name);
    Normalised(cmd);
    ThemeLine(name);
    assert ThemeArgument(cmd) == [] by {
      NameChars(name);
      ThemeWord();
      assert ' ' !in cmd by {
        forall k | 0 <= k < |cmd| ensures cmd[k] != ' ' {
          if k >= 5 { assert cmd[k] == name[k - 5]; }
        }
      }
    }
  }

  lemma ThemeWord()
    ensures ' ' !in "theme"
  {
  }

  /** Splitting at a first `c` that follows `a`. */
  lemma SplitAfter(a: string, b: string, c: char)
    requires c !in a
    ensures SplitOn(a + [c] + b, c) == [a] + SplitOn(b, c)
  {
    var s := a + [c] + b;
    IndexOfAfter(a, b, c);
    assert s[..|a|] == a;
    assert s[|a| + 1..] == b;
  }

  /** The outcome of a call that may raise. */
  datatype Outcome<T> = Returned(value: T) | Raised(error: string)

  /** `handleSpecialCommand` as the module is written: `AVAILABLE_THEMES`
      (and `USAGE_EXAMPLES`) are imported with `import type`, which is
      erased from the emitted JavaScript, so every theme branch raises a
      `ReferenceError` on its first read of the list, and no theme is ever
      switched. */
  function HandleSpecialCommandAsWritten(command: string): (r: Outcome<Option<TerminalResult>>)
    ensures r.Returned? ==> r.value == HandleSpecialCommand(command)
    ensures r.Returned? && r.value.Some? ==> !r.value.value.data.Act? || !r.value.value.data.action.SwitchTheme?
  {
    var cmd := Trim(LowerStr(command));
    if cmd != "clear" && cmd != "help" && cmd != "fields" && StartsWith(cmd, "theme") then
      Raised("ReferenceError: AVAILABLE_THEMES is not defined")
    else Returned(SpecialAnswer(cmd))
  }

  /** `theme <name>` raises in the handler as written, where the intended
      handler switches to a known theme (`ThemeCommand`): with `matrix`,
      `theme matrix` raises instead of switching. */
  lemma {:induction false} ThemeCommandRaises(name: string)
    requires name != [] && NoSpace(name) && LowerStr(name) == name
    ensures HandleSpecialCommandAsWritten("theme " + name).Raised?
  {
    var rest := " " + name;
    var cmd := "theme" + rest;
    assert Trim(LowerStr(cmd)) == cmd by {
      SpacedName(" ", name);
      ThemeCommandText(rest);
      TrimOfTrimmed(cmd);
    }
    assert cmd[0] == 't';
    assert cmd[..5] == "theme";
    OneSpaceText(name);
  }

  /** What `getFieldsByNames` returns: each name resolved through the alias
      table and looked up in the extra data, then the hidden overlays, then
      the categories, in the terminal's order. */
  function FieldsByNames(p: Portfolio, names: seq<string>): (r: TerminalResult)
  {
    var t := TallyOf(p, Terminal, names);
    TerminalResult(Fields(t.data), Metadata(|names|, t.valid, t.hidden, t.invalid, Some(t.types), Some(t.sources), None))
  }

  /** `getFieldsByNames`. */
  method GetFieldsByNames(p: Portfolio, fieldNames: seq<string>) returns (r: TerminalResult)
    ensures r == FieldsByNames(p, fieldNames)
  {
    var result: map<string, Value> := map[];
    var fieldMetadata: map<string, FieldType> := map[];
    var sources: map<string, string> := map[];
    var validFields, hiddenFields, invalidFields := 0, 0, 0;
    for i := 0 to |fieldNames|
      invariant TallyOf(p, Terminal, fieldNames[..i]) ==
                Tally(result, fieldMetadata, sources, validFields, hiddenFields, invalidFields)
    {
      var fieldName := fieldNames[i];
      var actualField := ResolveSimilarField(p.aliases, fieldName);
      var fieldInfo := FindFieldAnywhere(p, TerminalOrder, "extra", actualField);
      TallyStep(p, Terminal, fieldNames, i);
      result := result[fieldName := fieldInfo.value];
      fieldMetadata := fieldMetadata[fieldName := fieldInfo.kind];
      if fieldInfo.source.Some? {
        sources := sources[fieldName := fieldInfo.source.value];
      }
      if fieldInfo.kind == NormalField {
        validFields := validFields + 1;
      } else if fieldInfo.kind == HiddenField {
        hiddenFields := hiddenFields + 1;
      } else {
        invalidFields := invalidFields + 1;
      }
    }
    assert fieldNames[..|fieldNames|] == fieldNames;
    r := TerminalResult(Fields(result), Metadata(|fieldNames|, validFields, hiddenFields, invalidFields,
                                                 Some(fieldMetadata), Some(sources), None));
  }

  /** The counters of `getFieldsByNames` add up to the number of names, and
      the result and `fieldTypes` are keyed by the names as typed. */
  lemma FieldsByNamesCounts(p: Portfolio, names: seq<string>)
    ensures var m := FieldsByNames(p, names).metadata;
      m.validFields + m.hiddenFields + m.invalidFields == m.totalFields
    ensures FieldsByNames(p, names).data.values.Keys == TokenSet(names)
    ensures FieldsByNames(p, names).metadata.fieldTypes.value.Keys == TokenSet(names)
  {
    TallyCounts(p, Terminal, names);
    TallyKeys(p, Terminal, names);
  }

  /** `sources` names exactly the fields that were found, each with `extra`
      or the category it was found in. */
  lemma FieldsByNamesSources(p: Portfolio, names: seq<string>, k: string)
    ensures var s := FieldsByNames(p, names).metadata.sources.value;
      (k in s <==> k in names && Classify(p, Terminal, k).kind != InvalidField) &&
      (k in s ==> s[k] == "extra" || s[k] in TerminalOrder)
  {
    TallySources(p, Terminal, names, k);
    TallyKeys(p, Terminal, names);
    LocateSource(p, TerminalOrder, "extra", Resolve(p.aliases, k));
  }

  /** `getCategoryByName`. */
  function CategoryByName(p: Portfolio, category: string): (r: TerminalResult)
    ensures r.data.Fields? <==> GetCategoryData(p, category).Some?
    ensures r.data.Fields? ==> r.data.values == p.normal[category]
    ensures r.data.Fields? ==> r.metadata.sources == Some(map[category := category]) &&
                               r.metadata.totalFields == r.metadata.validFields == |p.normal[category].Keys|
    ensures !r.data.Fields? ==> r.metadata == Counts(0, 0, 0, 1)
  {
    if category !in TerminalOrder then TerminalResult(Say(UnknownCategory(category)), Counts(0, 0, 0, 1))
    else match GetCategoryData(p, category)
      case None => TerminalResult(Say(NoData(category)), Counts(0, 0, 0, 1))
      case Some(d) =>
        TerminalResult(Fields(d), Metadata(|d.Keys|, |d.Keys|, 0, 0, None, Some(map[category := category]), None))
  }

  /** For one of the five categories, `name[]` in the terminal shows the
      same data, with the same counters, as the API's `getData` with no
      fields. */
  lemma CategoryAgreesWithApi(p: Portfolio, category: string)
    requires category in TerminalOrder
    ensures var t := CategoryByName(p, category);
      var a := DataService.Data(p, category, []);
      (t.data.Fields? <==> a.data.Some?) &&
      (t.data.Fields? ==> a.data.value == t.data.values &&
                          a.metadata.totalFields == t.metadata.totalFields &&
                          a.metadata.validFields == t.metadata.validFields &&
                          a.metadata.hiddenFields == t.metadata.hiddenFields == 0 &&
                          a.metadata.invalidFields == t.metadata.invalidFields == 0)
  {
  }

  /** The keys of the categories in `categories` that have data. */
  function CategoryKeys(p: Portfolio, categories: seq<string>): (r: set<string>)
  {
    if categories == [] then {}
    else
      var last := categories[|categories| - 1];
      CategoryKeys(p, categories[..|categories| - 1]) +
      (match GetCategoryData(p, last) case Some(d) => d.Keys case None => {})
  }

  /** The canonical names of the alias table. */
  function Canonicals(aliases: seq<Alias>): (r: set<string>)
  {
    if aliases == [] then {}
    else Canonicals(aliases[..|aliases| - 1]) + {aliases[|aliases| - 1].canonical}
  }

  /** The fields `getAvailableFields` lists: the keys of every category, of
      the extra data and the canonical names of the alias table; the hidden
      overlays are not consulted. */
  function AvailableFieldSet(p: Portfolio): (r: set<string>)
  {
    CategoryKeys(p, TerminalOrder) + p.extra.Keys + Canonicals(p.aliases)
  }

  /** A field is a category key exactly when one of the categories with data
      holds it. */
  lemma {:induction false} CategoryKeysMember(p: Portfolio, categories: seq<string>, f: string)
    ensures f in CategoryKeys(p, categories) <==>
              exists i :: 0 <= i < |categories| && InNormal(p, categories[i], f)
  {
    if categories != [] {
      var init := categories[..|categories| - 1];
      CategoryKeysMember(p, init, f);
      if exists i :: 0 <= i < |init| && InNormal(p, init[i], f) {
        var i :| 0 <= i < |init| && InNormal(p, init[i], f);
        assert categories[i] == init[i];
      }
      if exists i :: 0 <= i < |categories| && InNormal(p, categories[i], f) {
        var i :| 0 <= i < |categories| && InNormal(p, categories[i], f);
        if i < |init| {
          assert init[i] == categories[i];
        }
      }
    }
  }

  /** A listed field that no alias renames, typed as a field name, is found
      (as normal, or as hidden when an overlay shadows it). */
  lemma ListedFieldFound(p: Portfolio, f: string)
    requires f in CategoryKeys(p, TerminalOrder) || f in p.extra
    requires Resolve(p.aliases, f) == f
    ensures Classify(p, Terminal, f).kind != InvalidField
  {
    CategoryKeysMember(p, TerminalOrder, f);
    LocatePrecedence(p, TerminalOrder, "extra", f);
  }

  /** `Object.keys(data).forEach(key => fields.add(key))`. */
  method AddAll(fields: seq<string>, keys: set<string>) returns (r: seq<string>)
    requires Distinct(fields)
    ensures Distinct(r)
    ensures forall x :: x in r <==> x in fields || x in keys
  {
    r := fields;
    var rest := keys;
    while rest != {}
      invariant Distinct(r)
      invariant forall x :: x in r || x in rest <==> x in fields || x in keys
      decreases |rest|
    {
      var key :| key in rest;
      r := Add(r, key);
      rest := rest - {key};
    }
  }

  /** `getAvailableFields`: the fields of every category, of the extra data
      and the canonical alias names, duplicates merged, sorted. */
  method GetAvailableFields(p: Portfolio) returns (r: seq<string>)
    ensures StrictlySorted(r)
    ensures forall x :: x in r <==> x in AvailableFieldSet(p)
  {
    var fields: seq<string> := [];
    var categories := TerminalOrder;
    for i := 0 to |categories|
      invariant Distinct(fields)
      invariant forall x :: x in fields <==> x in CategoryKeys(p, categories[..i])
    {
      assert categories[..i + 1][..i] == categories[..i];
      var categoryData := GetCategoryData(p, categories[i]);
      if categoryData.Some? {
        fields := AddAll(fields, categoryData.value.Keys);
      }
    }
    assert categories[..|categories|] == categories;
    fields := AddAll(fields, p.extra.Keys);
    for j := 0 to |p.aliases|
      invariant Distinct(fields)
      invariant forall x :: x in fields <==>
                  x in CategoryKeys(p, TerminalOrder) || x in p.extra || x in Canonicals(p.aliases[..j])
    {
      assert p.aliases[..j + 1][..j] == p.aliases[..j];
      fields := Add(fields, p.aliases[j].canonical);
    }
    assert p.aliases[..|p.aliases|] == p.aliases;
    SortDistinct(fields);
    r := Sort(fields);
  }

  /** `Object.keys(data).sort()`. */
  method SortedKeys(keys: set<string>) returns (r: seq<string>)
    ensures StrictlySorted(r)
    ensures forall x :: x in r <==> x in keys
  {
    var fields := AddAll([], keys);
    SortDistinct(fields);
    r := Sort(fields);
  }

  /** `getFieldsByCategory`: each category that has data, with its keys
      sorted, then `extra` with the extra keys sorted when there is one. */
  method GetFieldsByCategory(p: Portfolio) returns (r: map<string, seq<string>>)
    ensures forall c :: c in r <==> (c in TerminalOrder && c in p.normal) || (c == "extra" && |p.extra| > 0)
    ensures forall c :: c in r && c != "extra" ==> StrictlySorted(r[c])
    ensures forall c, x :: c in r && c != "extra" ==> (x in r[c] <==> InNormal(p, c, x))
    ensures "extra" in r ==> StrictlySorted(r["extra"]) && forall x :: x in r["extra"] <==> x in p.extra
  {
    r := map[];
    var categories := TerminalOrder;
    for i := 0 to |categories|
      invariant forall c :: c in r <==> c in categories[..i] && c in p.normal
      invariant forall c :: c in r ==> c in categories && StrictlySorted(r[c])
      invariant forall c, x :: c in r ==> (x in r[c] <==> InNormal(p, c, x))
    {
      var category := categories[i];
      assert forall c :: c in categories[..i + 1] <==> c in categories[..i] || c == category;
      var categoryData := GetCategoryData(p, category);
      if categoryData.Some? {
        var keys := SortedKeys(categoryData.value.Keys);
        r := r[category := keys];
      }
    }
    assert categories[..|categories|] == categories;
    var extraFields := p.extra.Keys;
    if |extraFields| > 0 {
      var keys := SortedKeys(extraFields);
      r := r["extra" := keys];
    }
  }
}
