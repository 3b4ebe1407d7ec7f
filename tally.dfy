/** The per-token classification and the bookkeeping shared by `getData`,
    `getFieldsFreestyle`, `getHelpData` and `getFieldsByNames`: each token is
    looked up, its value stored in the result under the token as written,
    its type in `fieldTypes`, its source (if any) in `sources`, and one of
    three counters incremented. */
module FieldTally {
  import opened Values
  import opened Desc
  import opened Catalog

  /** Which loop is running: `getData` for a category, freestyle, the
      terminal's `getFieldsByNames`, or `getHelpData`. */
  datatype Mode = Scoped(category: string) | Freestyle | Terminal | HelpIndex

  /** The result `metadata` of both surfaces; absent parts are `None`. */
  datatype Metadata = Metadata(
    totalFields: nat,
    validFields: nat,
    hiddenFields: nat,
    invalidFields: nat,
    fieldTypes: Option<map<string, FieldType>>,
    sources: Option<map<string, string>>,
    mode: Option<string>)

  /** Metadata holding only the four counters. */
  function Counts(total: nat, valid: nat, hidden: nat, invalid: nat): (r: Metadata)
  {
    Metadata(total, valid, hidden, invalid, None, None, None)
  }

  /** `{ ...categoryDesc, freestyle: freestyleDesc }`. */
  function HelpTable(d: Descriptions): (h: map<string, Value>)
    ensures h.Keys == d.categories.Keys + {"freestyle"}
    ensures h["freestyle"] == FreestyleDescValue(d.freestyle)
    ensures forall k :: k in d.categories && k != "freestyle" ==> h[k] == CategoryDescValue(d.categories[k])
  {
    (map k | k in d.categories :: CategoryDescValue(d.categories[k]))["freestyle" := FreestyleDescValue(d.freestyle)]
  }

  /** How one token is classified. A `help` token short-circuits the lookup
      in `getData` (the category's description, invalid when it has none)
      and in freestyle (the freestyle description, always normal); every
      other token is resolved through the alias table first. */
  function Classify(p: Portfolio, mode: Mode, token: string): (r: Lookup)
  {
    match mode
    case Scoped(category) =>
      if token == "help" then
        if category in p.desc.categories then
          Lookup(CategoryDescValue(p.desc.categories[category]), NormalField, None)
        else Lookup(Null, InvalidField, None)
      else AnalyzeField(p, category, Resolve(p.aliases, token))
    case Freestyle =>
      if token == "help" then Lookup(FreestyleDescValue(p.desc.freestyle), NormalField, None)
      else Locate(p, ApiOrder, "extraData", Resolve(p.aliases, token))
    case Terminal =>
      Locate(p, TerminalOrder, "extra", Resolve(p.aliases, token))
    case HelpIndex =>
      if token in HelpTable(p.desc) then Lookup(HelpTable(p.desc)[token], NormalField, None)
      else Lookup(Null, InvalidField, None)
  }

  /** The state the loops build: the result, `fieldTypes`, `sources` and the
      three counters. */
  datatype Tally = Tally(
    data: map<string, Value>,
    types: map<string, FieldType>,
    sources: map<string, string>,
    valid: nat,
    hidden: nat,
    invalid: nat)

  const EmptyTally := Tally(map[], map[], map[], 0, 0, 0)

  /** One loop iteration for `token`, whose lookup gave `l`. */
  function Record(t: Tally, token: string, l: Lookup): (r: Tally)
  {
    Tally(
      t.data[token := l.value],
      t.types[token := l.kind],
      if l.source.Some? then t.sources[token := l.source.value] else t.sources,
      t.valid + (if l.kind == NormalField then 1 else 0),
      t.hidden + (if l.kind == HiddenField then 1 else 0),
      t.invalid + (if l.kind == InvalidField then 1 else 0))
  }

  /** The tally after the loop has run over `tokens`. */
  function TallyOf(p: Portfolio, mode: Mode, tokens: seq<string>): (r: Tally)
  {
    if tokens == [] then EmptyTally
    else
      var last := tokens[|tokens| - 1];
      Record(TallyOf(p, mode, tokens[..|tokens| - 1]), last, Classify(p, mode, last))
  }

  /** One more token extends the tally by one `Record`. */
  lemma TallyStep(p: Portfolio, mode: Mode, fields: seq<string>, i: nat)
    requires i < |fields|
    ensures TallyOf(p, mode, fields[..i + 1]) ==
              Record(TallyOf(p, mode, fields[..i]), fields[i], Classify(p, mode, fields[i]))
  {
    assert fields[..i + 1][..i] == fields[..i];
  }

  /** How many of the tokens (duplicates included) are classified `kind`. */
  function CountOf(p: Portfolio, mode: Mode, tokens: seq<string>, kind: FieldType): (r: nat)
  {
    if tokens == [] then 0
    else
      CountOf(p, mode, tokens[..|tokens| - 1], kind) +
      (if Classify(p, mode, tokens[|tokens| - 1]).kind == kind then 1 else 0)
  }

  /** Every token is counted exactly once, duplicates separately: the three
      counters are the numbers of tokens of each type and add up to the
      number of tokens. */
  lemma {:induction false} TallyCounts(p: Portfolio, mode: Mode, tokens: seq<string>)
    ensures TallyOf(p, mode, tokens).valid == CountOf(p, mode, tokens, NormalField)
    ensures TallyOf(p, mode, tokens).hidden == CountOf(p, mode, tokens, HiddenField)
    ensures TallyOf(p, mode, tokens).invalid == CountOf(p, mode, tokens, InvalidField)
    ensures TallyOf(p, mode, tokens).valid + TallyOf(p, mode, tokens).hidden +
            TallyOf(p, mode, tokens).invalid == |tokens|
  {
    if tokens != [] {
      TallyCounts(p, mode, tokens[..|tokens| - 1]);
    }
  }

  /** The set of tokens, duplicates merged. */
  function TokenSet(tokens: seq<string>): (r: set<string>)
  {
    set x | x in tokens
  }

  /** The result and `fieldTypes` are keyed by exactly the tokens as
      written. */
  lemma {:induction false} TallyKeys(p: Portfolio, mode: Mode, tokens: seq<string>)
    ensures TallyOf(p, mode, tokens).data.Keys == TokenSet(tokens)
    ensures TallyOf(p, mode, tokens).types.Keys == TokenSet(tokens)
  {
    if tokens != [] {
      var init, last := tokens[..|tokens| - 1], tokens[|tokens| - 1];
      TallyKeys(p, mode, init);
      assert tokens == init + [last];
      TokenSetSnoc(init, last);
      var t := TallyOf(p, mode, init);
      assert TallyOf(p, mode, tokens) == Record(t, last, Classify(p, mode, last));
      RecordKeys(t, last, Classify(p, mode, last));
    }
  }

  lemma RecordKeys(t: Tally, token: string, l: Lookup)
    ensures Record(t, token, l).data.Keys == t.data.Keys + {token}
    ensures Record(t, token, l).types.Keys == t.types.Keys + {token}
  {
  }

  lemma TokenSetSnoc(init: seq<string>, last: string)
    ensures TokenSet(init + [last]) == TokenSet(init) + {last}
  {
  }

  /** Each token's entry in the result and in `fieldTypes` is its own
      classification. */
  lemma {:induction false} TallyValues(p: Portfolio, mode: Mode, tokens: seq<string>, k: string)
    requires k in TallyOf(p, mode, tokens).data
    ensures k in TallyOf(p, mode, tokens).types
    ensures TallyOf(p, mode, tokens).data[k] == Classify(p, mode, k).value
    ensures TallyOf(p, mode, tokens).types[k] == Classify(p, mode, k).kind
  {
    var init := tokens[..|tokens| - 1];
    if k != tokens[|tokens| - 1] {
      TallyValues(p, mode, init, k);
    }
  }

  /** `sources` has an entry exactly for the tokens found somewhere, holding
      where each was found. */
  lemma {:induction false} TallySources(p: Portfolio, mode: Mode, tokens: seq<string>, k: string)
    ensures k in TallyOf(p, mode, tokens).sources <==>
              k in TallyOf(p, mode, tokens).data && Classify(p, mode, k).source.Some?
    ensures k in TallyOf(p, mode, tokens).sources ==>
              TallyOf(p, mode, tokens).sources[k] == Classify(p, mode, k).source.value
  {
    if tokens != [] {
      TallySources(p, mode, tokens[..|tokens| - 1], k);
    }
  }

  /** `getHelpData` never meets a hidden field. */
  lemma {:induction false} HelpIndexNeverHidden(p: Portfolio, tokens: seq<string>)
    ensures TallyOf(p, HelpIndex, tokens).hidden == 0
  {
    if tokens != [] {
      HelpIndexNeverHidden(p, tokens[..|tokens| - 1]);
    }
  }

  /** The `help` token: in a category query it yields the category's
      description, normal exactly when the category has one; in freestyle it
      yields the freestyle description and is always normal. */
  lemma HelpToken(p: Portfolio, mode: Mode, tokens: seq<string>)
    requires "help" in tokens
    ensures "help" in TallyOf(p, mode, tokens).data && "help" in TallyOf(p, mode, tokens).types
    ensures mode.Freestyle? ==>
      TallyOf(p, mode, tokens).data["help"] == FreestyleDescValue(p.desc.freestyle) &&
      TallyOf(p, mode, tokens).types["help"] == NormalField
    ensures mode.Scoped? ==>
      (TallyOf(p, mode, tokens).types["help"] == NormalField <==> mode.category in p.desc.categories)
  {
    TallyKeys(p, mode, tokens);
    assert "help" in TokenSet(tokens);
    TallyValues(p, mode, tokens, "help");
  }
}
