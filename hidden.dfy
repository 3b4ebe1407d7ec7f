/** `getHiddenData` (`src/data/hidden.ts`): the hidden catalog flattened to
    `category.key` entries, then an exact lookup with a case-insensitive
    fallback. The catalog is a parameter: its categories and their entries
    in declaration order. */
module Hidden {
  import opened Values
  import opened Text

  datatype HiddenGroup = HiddenGroup(category: string, items: seq<Entry>)

  predicate DistinctKeys(flat: seq<Entry>)
  {
    forall i, j :: 0 <= i < j < |flat| ==> flat[i].key != flat[j].key
  }

  /** `flat[key] = value` on a plain object: an existing property keeps its
      place and takes the new value, a new one is appended. */
  function Assign(flat: seq<Entry>, key: string, value: Value): (r: seq<Entry>)
    ensures Get(r, key) == Some(value)
    ensures forall k :: k != key ==> Get(r, k) == Get(flat, k)
    ensures DistinctKeys(flat) ==> DistinctKeys(r)
  {
    if flat == [] then [Entry(key, value)]
    else if flat[0].key == key then
      var r := [Entry(key, value)] + flat[1..];
      assert r[1..] == flat[1..];
      r
    else
      var rest := Assign(flat[1..], key, value);
      var r := [flat[0]] + rest;
      assert r[1..] == rest;
      assert DistinctKeys(flat) ==> DistinctKeys(r) by {
        if DistinctKeys(flat) {
          assert DistinctKeys(flat[1..]);
          assert Get(flat[1..], flat[0].key).None?;
          assert Get(rest, flat[0].key).None?;
          forall j | 0 <= j < |rest| ensures rest[j].key != flat[0].key {
            if rest[j].key == flat[0].key {
              assert HasKey(rest, flat[0].key);
            }
          }
        }
      }
      r
  }

  /** Assignment adds exactly its key. */
  lemma AssignKeys(flat: seq<Entry>, key: string, value: Value)
    ensures Keys(Assign(flat, key, value)) == Keys(flat) + {key}
  {
    var r := Assign(flat, key, value);
    forall k ensures k in Keys(r) <==> k in Keys(flat) + {key} {
      if k != key {
        assert Get(r, k) == Get(flat, k);
      }
    }
  }

  /** The key `${category}.${key}`. */
  function FlatKey(category: string, key: string): (r: string)
  {
    category + "." + key
  }

  /** The entries of one group assigned in order. */
  function AssignGroup(flat: seq<Entry>, category: string, items: seq<Entry>): (r: seq<Entry>)
  {
    if items == [] then flat
    else
      var last := items[|items| - 1];
      Assign(AssignGroup(flat, category, items[..|items| - 1]), FlatKey(category, last.key), last.value)
  }

  /** The `flatData` object once every group has been assigned. */
  function Flattened(t: seq<HiddenGroup>): (r: seq<Entry>)
  {
    if t == [] then []
    else AssignGroup(Flattened(t[..|t| - 1]), t[|t| - 1].category, t[|t| - 1].items)
  }

  /** The keys one group gives rise to. */
  function GroupKeys(category: string, items: seq<Entry>): (r: set<string>)
  {
    if items == [] then {}
    else GroupKeys(category, items[..|items| - 1]) + {FlatKey(category, items[|items| - 1].key)}
  }

  /** Every key `category.key` the table gives rise to. */
  function FlatKeys(t: seq<HiddenGroup>): (r: set<string>)
  {
    if t == [] then {}
    else FlatKeys(t[..|t| - 1]) + GroupKeys(t[|t| - 1].category, t[|t| - 1].items)
  }

  lemma {:induction false} GroupKeysMember(category: string, items: seq<Entry>, x: string)
    ensures x in GroupKeys(category, items) <==>
              exists i :: 0 <= i < |items| && x == FlatKey(category, items[i].key)
  {
    if items != [] {
      var init := items[..|items| - 1];
      GroupKeysMember(category, init, x);
      if exists i :: 0 <= i < |items| && x == FlatKey(category, items[i].key) {
        var i :| 0 <= i < |items| && x == FlatKey(category, items[i].key);
        if i < |init| { assert init[i] == items[i]; }
      }
      if exists i :: 0 <= i < |init| && x == FlatKey(category, init[i].key) {
        var i :| 0 <= i < |init| && x == FlatKey(category, init[i].key);
        assert init[i] == items[i];
      }
    }
  }

  /** The flattened keys are exactly `category.key` for the catalog's entries. */
  lemma {:induction false} FlatKeysMember(t: seq<HiddenGroup>, x: string)
    ensures x in FlatKeys(t) <==>
              exists k, i :: 0 <= k < |t| && 0 <= i < |t[k].items| && x == FlatKey(t[k].category, t[k].items[i].key)
  {
    if t != [] {
      var init := t[..|t| - 1];
      var g := t[|t| - 1];
      FlatKeysMember(init, x);
      GroupKeysMember(g.category, g.items, x);
      if exists k, i :: 0 <= k < |t| && 0 <= i < |t[k].items| && x == FlatKey(t[k].category, t[k].items[i].key) {
        var k, i :| 0 <= k < |t| && 0 <= i < |t[k].items| && x == FlatKey(t[k].category, t[k].items[i].key);
        if k < |init| { assert init[k] == t[k]; }
      }
      if exists k, i :: 0 <= k < |init| && 0 <= i < |init[k].items| && x == FlatKey(init[k].category, init[k].items[i].key) {
        var k, i :| 0 <= k < |init| && 0 <= i < |init[k].items| && x == FlatKey(init[k].category, init[k].items[i].key);
        assert init[k] == t[k];
      }
    }
  }

  /** Values some entry of the table stores under `key`. */
  predicate StoredUnder(t: seq<HiddenGroup>, key: string, v: Value)
  {
    exists k, i :: 0 <= k < |t| && 0 <= i < |t[k].items| &&
      FlatKey(t[k].category, t[k].items[i].key) == key && t[k].items[i].value == v
  }

  /** The nested `forEach` that fills `flatData`. */
  method Flatten(t: seq<HiddenGroup>) returns (flat: seq<Entry>)
    ensures flat == Flattened(t)
  {
    flat := [];
    var k := 0;
    while k < |t|
      invariant 0 <= k <= |t|
      invariant flat == Flattened(t[..k])
    {
      var g := t[k];
      var start := flat;
      var i := 0;
      while i < |g.items|
        invariant 0 <= i <= |g.items|
        invariant flat == AssignGroup(start, g.category, g.items[..i])
      {
        assert g.items[..i + 1][..i] == g.items[..i];
        flat := Assign(flat, FlatKey(g.category, g.items[i].key), g.items[i].value);
        i := i + 1;
      }
      assert g.items[..i] == g.items;
      assert t[..k + 1][..k] == t[..k];
      k := k + 1;
    }
    assert t[..|t|] == t;
  }

  lemma {:induction false} AssignGroupKeys(flat: seq<Entry>, category: string, items: seq<Entry>)
    ensures Keys(AssignGroup(flat, category, items)) == Keys(flat) + GroupKeys(category, items)
  {
    if items != [] {
      var init := items[..|items| - 1];
      var last := items[|items| - 1];
      AssignGroupKeys(flat, category, init);
      AssignKeys(AssignGroup(flat, category, init), FlatKey(category, last.key), last.value);
    }
  }

  lemma {:induction false} AssignGroupDistinct(flat: seq<Entry>, category: string, items: seq<Entry>)
    requires DistinctKeys(flat)
    ensures DistinctKeys(AssignGroup(flat, category, items))
  {
    if items != [] {
      AssignGroupDistinct(flat, category, items[..|items| - 1]);
    }
  }

  lemma {:induction false} AssignGroupStored(flat: seq<Entry>, category: string, items: seq<Entry>, key: string)
    requires Get(AssignGroup(flat, category, items), key).Some?
    ensures var v := Get(AssignGroup(flat, category, items), key).value;
      Get(flat, key) == Some(v) ||
      exists i :: 0 <= i < |items| && FlatKey(category, items[i].key) == key && items[i].value == v
  {
    if items != [] {
      var init := items[..|items| - 1];
      var last := items[|items| - 1];
      var v := Get(AssignGroup(flat, category, items), key).value;
      if key != FlatKey(category, last.key) {
        AssignGroupStored(flat, category, init, key);
        if Get(flat, key) != Some(v) {
          var i :| 0 <= i < |init| && FlatKey(category, init[i].key) == key && init[i].value == v;
          assert items[i] == init[i];
        }
      } else {
        assert items[|items| - 1].value == v;
      }
    }
  }

  /** `flatData` has exactly one key `category.key` per catalog entry (two
      entries that spell the same key share it), and no key twice. */
  lemma {:induction false} FlattenedKeys(t: seq<HiddenGroup>)
    ensures Keys(Flattened(t)) == FlatKeys(t)
    ensures DistinctKeys(Flattened(t))
  {
    if t != [] {
      var init := t[..|t| - 1];
      var g := t[|t| - 1];
      FlattenedKeys(init);
      AssignGroupKeys(Flattened(init), g.category, g.items);
      AssignGroupDistinct(Flattened(init), g.category, g.items);
    }
  }

  /** Whatever `flatData` holds was stored in the catalog under that key. */
  lemma {:induction false} FlattenedStored(t: seq<HiddenGroup>, key: string, v: Value)
    requires Get(Flattened(t), key) == Some(v)
    ensures StoredUnder(t, key, v)
  {
    var init := t[..|t| - 1];
    var g := t[|t| - 1];
    AssignGroupStored(Flattened(init), g.category, g.items, key);
    if Get(Flattened(init), key) == Some(v) {
      FlattenedStored(init, key, v);
      var k, i :| 0 <= k < |init| && 0 <= i < |init[k].items| &&
        FlatKey(init[k].category, init[k].items[i].key) == key && init[k].items[i].value == v;
      assert init[k] == t[k];
    } else {
      var i :| 0 <= i < |g.items| && FlatKey(g.category, g.items[i].key) == key && g.items[i].value == v;
      assert t[|t| - 1].items[i] == g.items[i];
    }
  }

  /** `Object.entries(flat).find(([k]) => k.toLowerCase() === command.toLowerCase())?.at(1)`. */
  function FindIgnoringCase(flat: seq<Entry>, command: string): (r: Option<Value>)
    ensures r.Some? ==> exists i :: 0 <= i < |flat| && LowerStr(flat[i].key) == LowerStr(command) && flat[i].value == r.value
    ensures r.None? ==> forall i :: 0 <= i < |flat| ==> LowerStr(flat[i].key) != LowerStr(command)
  {
    if flat == [] then None
    else if LowerStr(flat[0].key) == LowerStr(command) then Some(flat[0].value)
    else
      var r := FindIgnoringCase(flat[1..], command);
      assert r.Some? ==> exists i :: 0 <= i < |flat| && LowerStr(flat[i].key) == LowerStr(command) && flat[i].value == r.value by {
        if r.Some? {
          var i :| 0 <= i < |flat[1..]| && LowerStr(flat[1..][i].key) == LowerStr(command) && flat[1..][i].value == r.value;
          assert flat[i + 1] == flat[1..][i];
        }
      }
      r
  }

  /** The lookup `flat[command] || <case-insensitive match> || null`, each
      alternative taken only when truthy. */
  function LookupFlat(flat: seq<Entry>, command: string): (r: Option<Value>)
    ensures r.Some? ==> Truthy(r.value)
  {
    match Get(flat, command)
    case Some(v) =>
      if Truthy(v) then Some(v)
      else (match FindIgnoringCase(flat, command)
        case Some(w) => if Truthy(w) then Some(w) else None
        case None => None)
    case None =>
      match FindIgnoringCase(flat, command)
      case Some(w) => if Truthy(w) then Some(w) else None
      case None => None
  }

  /** `getHiddenData`: flatten, then look up. */
  method GetHiddenData(t: seq<HiddenGroup>, command: string) returns (r: Option<Value>)
    ensures r == LookupFlat(Flattened(t), command)
  {
    var flat := Flatten(t);
    r := LookupFlat(flat, command);
  }

  /** An exact key with a truthy value wins. */
  lemma ExactMatch(t: seq<HiddenGroup>, category: string, key: string, v: Value)
    requires Get(Flattened(t), FlatKey(category, key)) == Some(v) && Truthy(v)
    ensures LookupFlat(Flattened(t), FlatKey(category, key)) == Some(v)
  {
  }

  /** Without a truthy exact match, the first key equal to the command up
      to case supplies the value. */
  lemma CaseInsensitiveMatch(t: seq<HiddenGroup>, command: string, i: nat)
    requires i < |Flattened(t)|
    requires !(Get(Flattened(t), command).Some? && Truthy(Get(Flattened(t), command).value))
    requires LowerStr(Flattened(t)[i].key) == LowerStr(command)
    requires forall j :: 0 <= j < i ==> LowerStr(Flattened(t)[j].key) != LowerStr(command)
    ensures LookupFlat(Flattened(t), command) ==
              (if Truthy(Flattened(t)[i].value) then Some(Flattened(t)[i].value) else None)
  {
    FirstIgnoringCase(Flattened(t), command, i);
  }

  lemma {:induction false} FirstIgnoringCase(flat: seq<Entry>, command: string, i: nat)
    requires i < |flat|
    requires LowerStr(flat[i].key) == LowerStr(command)
    requires forall j :: 0 <= j < i ==> LowerStr(flat[j].key) != LowerStr(command)
    ensures FindIgnoringCase(flat, command) == Some(flat[i].value)
  {
    if i > 0 {
      FirstIgnoringCase(flat[1..], command, i - 1);
    }
  }

  /** A non-null answer is a truthy value the catalog stores under a key
      equal to the command up to case. */
  lemma LookupStored(t: seq<HiddenGroup>, command: string)
    requires LookupFlat(Flattened(t), command).Some?
    ensures var v := LookupFlat(Flattened(t), command).value;
      Truthy(v) && exists key :: LowerStr(key) == LowerStr(command) && StoredUnder(t, key, v)
  {
    var flat := Flattened(t);
    var v := LookupFlat(flat, command).value;
    if Get(flat, command) == Some(v) {
      FlattenedStored(t, command, v);
    } else {
      var i :| 0 <= i < |flat| && LowerStr(flat[i].key) == LowerStr(command) && flat[i].value == v;
      assert Get(flat, flat[i].key).Some?;
      FlattenedKeysValue(flat, i);
      FlattenedKeys(t);
      FlattenedStored(t, flat[i].key, v);
    }
  }

  lemma FlattenedKeysValue(flat: seq<Entry>, i: nat)
    requires i < |flat|
    ensures DistinctKeys(flat) ==> Get(flat, flat[i].key) == Some(flat[i].value)
  {
    if DistinctKeys(flat) {
      GetDistinct(flat, i);
    }
  }

  lemma {:induction false} GetDistinct(flat: seq<Entry>, i: nat)
    requires i < |flat| && DistinctKeys(flat)
    ensures Get(flat, flat[i].key) == Some(flat[i].value)
  {
    if i > 0 {
      GetDistinct(flat[1..], i - 1);
    }
  }

  lemma {:induction false} LowerKeepsDot(s: string, c: string, p: nat)
    requires |s| == |c| && LowerStr(s) == LowerStr(c)
    requires p < |s| && s[p] == '.'
    ensures c[p] == '.'
  {
    assert LowerStr(s)[p] == '.';
    assert Lower(c[p]) == '.';
  }

  /** A command without a dot, such as a bare field name, finds nothing:
      every flattened key has the form `category.key`. */
  lemma BareNameMissing(t: seq<HiddenGroup>, command: string)
    requires '.' !in command
    ensures LookupFlat(Flattened(t), command) == None
  {
    var flat := Flattened(t);
    FlattenedKeys(t);
    forall i | 0 <= i < |flat| ensures LowerStr(flat[i].key) != LowerStr(command) {
      var key := flat[i].key;
      assert key in Keys(flat);
      FlatKeysMember(t, key);
      var k, j :| 0 <= k < |t| && 0 <= j < |t[k].items| && key == FlatKey(t[k].category, t[k].items[j].key);
      var p := |t[k].category|;
      assert key[p] == '.';
      if LowerStr(key) == LowerStr(command) {
        LowerKeepsDot(key, command, p);
      }
    }
  }
}
