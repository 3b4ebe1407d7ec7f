/** The order `Array.prototype.sort()` puts strings in (character by
    character, a proper prefix first) and a sort that produces it. */
module StringOrder {

  /** The UTF-16 code units of `c`: one unit below U+10000, otherwise a
      surrogate pair (high unit in D800-DBFF, low unit in DC00-DFFF). */
  function Units(c: char): (r: seq<int>)
    ensures 1 <= |r| <= 2
    ensures |r| == 1 <==> c as int < 0x1_0000
    ensures |r| == 1 ==> r[0] == c as int
    ensures |r| == 2 ==> 0xD800 <= r[0] < 0xDC00 && 0xDC00 <= r[1] < 0xE000 &&
                         c as int == 0x1_0000 + (r[0] - 0xD800) * 0x400 + (r[1] - 0xDC00)
  {
    if c as int < 0x1_0000 then [c as int]
    else [0xD800 + (c as int - 0x1_0000) / 0x400, 0xDC00 + (c as int - 0x1_0000) % 0x400]
  }

  /** Lexicographic order on code-unit sequences, a proper prefix first. */
  predicate UnitsBelow(u: seq<int>, v: seq<int>)
  {
    if u == [] then v != []
    else if v == [] then false
    else u[0] < v[0] || (u[0] == v[0] && UnitsBelow(u[1..], v[1..]))
  }

  /** The position of `c` in code-unit order. A character is never a lone
      surrogate, so the characters below U+D800 come first, then those above
      U+FFFF (whose high surrogate lies in D800-DBFF), then U+E000-U+FFFF. */
  function UnitRank(c: char): (r: int)
  {
    if c as int < 0xD800 then c as int
    else if c as int < 0x1_0000 then c as int + 0x11_0000
    else c as int
  }

  /** `UnitRank` orders two characters exactly as their UTF-16 code units
      do, and tells different characters apart. */
  lemma UnitRankOrder(x: char, y: char)
    ensures UnitRank(x) < UnitRank(y) <==> UnitsBelow(Units(x), Units(y))
    ensures UnitRank(x) == UnitRank(y) <==> x == y
  {
    var u, v := Units(x), Units(y);
    if |u| == 2 && |v| == 2 {
      assert UnitsBelow(u, v) <==> u[0] < v[0] || (u[0] == v[0] && UnitsBelow(u[1..], v[1..]));
      assert UnitsBelow(u[1..], v[1..]) <==> u[1] < v[1];
    }
  }

  /** `a` sorts strictly before `b`: character by character in UTF-16
      code-unit order (`UnitRankOrder`), a proper prefix first. */
  predicate Below(a: string, b: string)
  {
    if a == [] then b != []
    else if b == [] then false
    else UnitRank(a[0]) < UnitRank(b[0]) || (a[0] == b[0] && Below(a[1..], b[1..]))
  }

  predicate AtMost(a: string, b: string)
  {
    a == b || Below(a, b)
  }

  lemma {:induction false} BelowIrreflexive(a: string)
    ensures !Below(a, a)
  {
    if a != [] { BelowIrreflexive(a[1..]); }
  }

  lemma {:induction false} BelowTransitive(a: string, b: string, c: string)
    requires Below(a, b) && Below(b, c)
    ensures Below(a, c)
  {
    if a != [] && b != [] && c != [] && a[0] == b[0] == c[0] {
      BelowTransitive(a[1..], b[1..], c[1..]);
    }
  }

  /** Any two different strings are ordered one way or the other. */
  lemma {:induction false} BelowTotal(a: string, b: string)
    ensures a == b || Below(a, b) || Below(b, a)
  {
    if a != [] && b != [] {
      UnitRankOrder(a[0], b[0]);
    }
    if a != [] && b != [] && a[0] == b[0] {
      BelowTotal(a[1..], b[1..]);
      if a[1..] == b[1..] {
        assert a == [a[0]] + a[1..] && b == [b[0]] + b[1..];
      }
    }
  }

  lemma BelowAsymmetric(a: string, b: string)
    ensures !(Below(a, b) && Below(b, a))
  {
    if Below(a, b) && Below(b, a) {
      BelowTransitive(a, b, a);
      BelowIrreflexive(a);
    }
  }

  predicate Sorted(s: seq<string>)
  {
    forall i, j :: 0 <= i < j < |s| ==> AtMost(s[i], s[j])
  }

  predicate StrictlySorted(s: seq<string>)
  {
    forall i, j :: 0 <= i < j < |s| ==> Below(s[i], s[j])
  }

  /** No string occurs twice (what a JavaScript `Set` guarantees). */
  predicate Distinct(s: seq<string>)
  {
    forall i, j :: 0 <= i < j < |s| ==> s[i] != s[j]
  }

  /** `set.add(key)` on a JavaScript `Set`, kept in insertion order: the
      key is appended unless it is already there. */
  function Add(fields: seq<string>, key: string): (r: seq<string>)
    ensures Distinct(fields) ==> Distinct(r)
    ensures forall x :: x in r <==> x in fields || x == key
    ensures |fields| <= |r| <= |fields| + 1
  {
    if key in fields then fields else fields + [key]
  }

  lemma AtMostTransitive(a: string, b: string, c: string)
    requires AtMost(a, b) && AtMost(b, c)
    ensures AtMost(a, c)
  {
    if Below(a, b) && Below(b, c) { BelowTransitive(a, b, c); }
  }

  /** `x` placed before the first element it does not exceed. */
  function Insert(x: string, s: seq<string>): (r: seq<string>)
    requires Sorted(s)
    ensures Sorted(r)
    ensures multiset(r) == multiset(s) + multiset{x}
  {
    if s == [] then [x]
    else if AtMost(x, s[0]) then
      LowerBound(x, s);
      SortedCons(x, s);
      [x] + s
    else
      BelowTotal(x, s[0]);
      var rest := Insert(x, s[1..]);
      TailBound(s, rest, x);
      SortedCons(s[0], rest);
      assert s == [s[0]] + s[1..];
      [s[0]] + rest
  }

  /** A sorted sequence gains its order when a bound of every element is put in front. */
  lemma SortedCons(h: string, rest: seq<string>)
    requires Sorted(rest) && forall y :: y in rest ==> AtMost(h, y)
    ensures Sorted([h] + rest)
  {
    var r := [h] + rest;
    forall i, j | 0 <= i < j < |r| ensures AtMost(r[i], r[j]) {
      assert r[j] == rest[j - 1];
      if i > 0 { assert r[i] == rest[i - 1]; }
    }
  }

  /** What does not exceed the head of a sorted sequence exceeds no element. */
  lemma LowerBound(x: string, s: seq<string>)
    requires Sorted(s) && s != [] && AtMost(x, s[0])
    ensures forall y :: y in s ==> AtMost(x, y)
  {
    forall y | y in s ensures AtMost(x, y) {
      var j :| 0 <= j < |s| && s[j] == y;
      AtMostTransitive(x, s[0], s[j]);
    }
  }

  /** The head of a sorted sequence is a bound of its tail with one larger element added. */
  lemma TailBound(s: seq<string>, rest: seq<string>, x: string)
    requires Sorted(s) && s != [] && AtMost(s[0], x)
    requires multiset(rest) == multiset(s[1..]) + multiset{x}
    ensures forall y :: y in rest ==> AtMost(s[0], y)
  {
    forall y | y in rest ensures AtMost(s[0], y) {
      assert y in multiset(rest);
      if y != x {
        assert y in multiset(s[1..]);
        var j :| 0 <= j < |s[1..]| && s[1..][j] == y;
        assert s[j + 1] == y;
      }
    }
  }

  /** Sorts by insertion; `SortedPermutationUnique` shows that every correct
      sort gives this same result. */
  function Sort(s: seq<string>): (r: seq<string>)
    ensures Sorted(r)
    ensures multiset(r) == multiset(s)
  {
    if s == [] then []
    else
      assert s == [s[0]] + s[1..];
      Insert(s[0], Sort(s[1..]))
  }

  /** A sorted arrangement of a multiset of strings is unique. */
  lemma {:induction false} SortedPermutationUnique(a: seq<string>, b: seq<string>)
    requires Sorted(a) && Sorted(b) && multiset(a) == multiset(b)
    ensures a == b
  {
    if a != [] {
      assert b != [] by { assert a[0] in multiset(a); }
      SortedHeads(a, b);
      TailMultisets(a, b);
      SortedPermutationUnique(a[1..], b[1..]);
      assert a == [a[0]] + a[1..] && b == [b[0]] + b[1..];
    }
  }

  /** Two sorted arrangements of one multiset start with the same string. */
  lemma SortedHeads(a: seq<string>, b: seq<string>)
    requires Sorted(a) && Sorted(b) && multiset(a) == multiset(b) && a != [] && b != []
    ensures a[0] == b[0]
  {
    assert a[0] in multiset(b) && b[0] in multiset(a) by {
      assert a[0] in multiset(a) && b[0] in multiset(b);
    }
    var i :| 0 <= i < |b| && b[i] == a[0];
    var j :| 0 <= j < |a| && a[j] == b[0];
    assert AtMost(b[0], a[0]) by { if i > 0 { assert AtMost(b[0], b[i]); } }
    assert AtMost(a[0], b[0]) by { if j > 0 { assert AtMost(a[0], a[j]); } }
    BelowAsymmetric(a[0], b[0]);
  }

  /** Equal heads leave equal multisets behind. */
  lemma TailMultisets(a: seq<string>, b: seq<string>)
    requires multiset(a) == multiset(b) && a != [] && b != [] && a[0] == b[0]
    ensures multiset(a[1..]) == multiset(b[1..])
  {
    assert a == [a[0]] + a[1..] && b == [b[0]] + b[1..];
    assert multiset(a) == multiset{a[0]} + multiset(a[1..]);
    assert multiset(b) == multiset{b[0]} + multiset(b[1..]);
    assert multiset(a[1..]) == multiset(a) - multiset{a[0]};
    assert multiset(b[1..]) == multiset(b) - multiset{b[0]};
  }

  /** A sorted permutation of distinct strings is strictly increasing. */
  lemma SortDistinct(s: seq<string>)
    requires Distinct(s)
    ensures StrictlySorted(Sort(s))
    ensures Distinct(Sort(s))
    ensures forall x :: x in Sort(s) <==> x in s
  {
    var r := Sort(s);
    DistinctCount(s);
    CountDistinct(r);
    forall x ensures x in r <==> x in s {
      assert x in r <==> x in multiset(r);
      assert x in s <==> x in multiset(s);
    }
  }

  /** A strictly increasing arrangement of a set of strings is unique: any
      two with the same elements are equal. */
  lemma {:induction false} StrictlySortedUnique(a: seq<string>, b: seq<string>)
    requires StrictlySorted(a) && StrictlySorted(b)
    requires forall x :: x in a <==> x in b
    ensures a == b
  {
    StrictlyDistinct(a);
    StrictlyDistinct(b);
    DistinctCount(a);
    DistinctCount(b);
    forall x ensures multiset(a)[x] == multiset(b)[x] {
      assert x in a <==> x in multiset(a);
      assert x in b <==> x in multiset(b);
    }
    assert multiset(a) == multiset(b);
    SortedPermutationUnique(a, b);
  }

  /** Strictly increasing implies sorted and duplicate-free. */
  lemma StrictlyDistinct(s: seq<string>)
    requires StrictlySorted(s)
    ensures Sorted(s) && Distinct(s)
  {
    forall i, j | 0 <= i < j < |s| ensures s[i] != s[j] {
      BelowIrreflexive(s[i]);
    }
  }

  /** In a duplicate-free sequence every element occurs once. */
  lemma {:induction false} DistinctCount(s: seq<string>)
    requires Distinct(s)
    ensures forall x :: multiset(s)[x] <= 1
  {
    if s != [] {
      DistinctCount(s[1..]);
      assert s == [s[0]] + s[1..];
      assert s[0] !in s[1..];
    }
  }

  /** A sequence in which every element occurs at most once is duplicate-free. */
  lemma {:induction false} CountDistinct(s: seq<string>)
    requires forall x :: multiset(s)[x] <= 1
    ensures Distinct(s)
  {
    if s != [] {
      assert s == [s[0]] + s[1..];
      assert multiset(s) == multiset{s[0]} + multiset(s[1..]);
      assert multiset(s)[s[0]] <= 1;
      assert multiset(s[1..])[s[0]] == 0;
      forall x ensures multiset(s[1..])[x] <= 1 {
        assert multiset(s)[x] <= 1;
      }
      CountDistinct(s[1..]);
      forall j | 0 < j < |s| ensures s[0] != s[j] {
        assert s[j] == s[1..][j - 1];
        assert s[j] in multiset(s[1..]);
      }
    }
  }
}
