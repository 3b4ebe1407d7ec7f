/** Tokenisers: `s.split(/\s+/).filter(Boolean)` (here `Words`) and
    `s.split(c)` for a single character `c` (here `SplitOn`), each with the
    join that undoes it. */
module Split {
  import opened Text

  /** Length of the longest prefix of `s` without white space. */
  function WordLength(s: string): (n: nat)
    ensures n <= |s|
    ensures NoSpace(s[..n])
    ensures n < |s| ==> IsSpace(s[n])
  {
    if |s| == 0 || IsSpace(s[0]) then 0
    else
      var n := 1 + WordLength(s[1..]);
      assert s[..n] == [s[0]] + s[1..][..n - 1];
      n
  }

  /** `s.split(/\s+/).filter(Boolean)`: the maximal runs of non-white-space
      characters, in order. */
  function Words(s: string): (r: seq<string>)
    ensures forall i :: 0 <= i < |r| ==> r[i] != [] && NoSpace(r[i])
    decreases |s|
  {
    if s == [] then []
    else if IsSpace(s[0]) then Words(s[1..])
    else
      var n := WordLength(s);
      [s[..n]] + Words(s[n..])
  }

  lemma {:induction false} WordLengthOf(w: string, rest: string)
    requires NoSpace(w)
    requires rest == [] || IsSpace(rest[0])
    ensures WordLength(w + rest) == |w|
  {
    if w != [] {
      assert (w + rest)[1..] == w[1..] + rest;
      WordLengthOf(w[1..], rest);
    }
  }

  /** White space in front of the text yields no token. */
  lemma {:induction false} WordsSpacePrefix(pre: string, s: string)
    requires AllSpace(pre)
    ensures Words(pre + s) == Words(s)
  {
    if pre != [] {
      assert (pre + s)[1..] == pre[1..] + s;
      WordsSpacePrefix(pre[1..], s);
    } else {
      assert pre + s == s;
    }
  }

  /** White space after the text yields no token. */
  lemma {:induction false} WordsSpaceSuffix(s: string, suf: string)
    requires AllSpace(suf)
    ensures Words(s + suf) == Words(s)
    decreases |s|
  {
    if s == [] {
      calc {
        Words(s + suf);
        { assert s + suf == suf + []; }
        Words(suf + []);
        { WordsSpacePrefix(suf, []); }
        Words([]);
      }
    } else if IsSpace(s[0]) {
      assert (s + suf)[1..] == s[1..] + suf;
      WordsSpaceSuffix(s[1..], suf);
    } else {
      var n := WordLength(s);
      assert s == s[..n] + s[n..];
      WordLengthOf(s[..n], s[n..] + suf);
      assert s + suf == s[..n] + (s[n..] + suf);
      assert (s + suf)[..n] == s[..n];
      assert (s + suf)[n..] == s[n..] + suf;
      WordsSpaceSuffix(s[n..], suf);
    }
  }

  /** Tokenising ignores surrounding white space: `s.trim().split(/\s+/)`
      keeps the same tokens. */
  lemma WordsTrim(s: string)
    ensures Words(Trim(s)) == Words(s)
  {
    var t := TrimStart(s);
    var r := TrimEnd(t);
    assert s == s[..|s| - |t|] + t;
    WordsSpacePrefix(s[..|s| - |t|], t);
    assert t == r + t[|r|..];
    WordsSpaceSuffix(r, t[|r|..]);
  }

  /** Round trip: tokenising the tokens joined by white space gives them back. */
  lemma {:induction false} WordsJoin(ws: seq<string>, sep: string)
    requires sep != [] && AllSpace(sep)
    requires forall i :: 0 <= i < |ws| ==> ws[i] != [] && NoSpace(ws[i])
    ensures Words(Join(ws, sep)) == ws
  {
    if |ws| == 1 {
      WordLengthOf(ws[0], []);
      assert ws[0] + [] == ws[0];
      assert ws[0][..|ws[0]|] == ws[0];
      assert ws[0][|ws[0]|..] == [];
    } else if |ws| > 1 {
      var rest := Join(ws[1..], sep);
      var s := ws[0] + sep + rest;
      WordLengthOf(ws[0], sep + rest);
      assert s == ws[0] + (sep + rest);
      assert s[..|ws[0]|] == ws[0];
      assert s[|ws[0]|..] == sep + rest;
      assert Words(s) == [ws[0]] + Words(sep + rest);
      WordsSpacePrefix(sep, rest);
      WordsJoin(ws[1..], sep);
      assert ws == [ws[0]] + ws[1..];
    }
  }

  /** Index of the first `c` in `s`. */
  function IndexOf(s: string, c: char): (i: nat)
    requires c in s
    ensures i < |s| && s[i] == c && c !in s[..i]
  {
    if s[0] == c then 0
    else
      assert c in s[1..] by { var k :| 0 <= k < |s| && s[k] == c; assert s[1..][k - 1] == c; }
      var i := 1 + IndexOf(s[1..], c);
      assert s[..i] == [s[0]] + s[1..][..i - 1];
      i
  }

  /** `s.split(c)` for one character `c`: the pieces between occurrences of
      `c`, empty pieces included; there is always at least one piece. */
  function SplitOn(s: string, c: char): (r: seq<string>)
    ensures |r| >= 1
    ensures forall i :: 0 <= i < |r| ==> c !in r[i]
    decreases |s|
  {
    if c !in s then [s]
    else
      var i := IndexOf(s, c);
      [s[..i]] + SplitOn(s[i + 1..], c)
  }

  /** Joining the pieces with `c` restores the input. */
  lemma {:induction false} JoinSplitOn(s: string, c: char)
    ensures Join(SplitOn(s, c), [c]) == s
    decreases |s|
  {
    if c in s {
      var i := IndexOf(s, c);
      JoinSplitOn(s[i + 1..], c);
      assert s == s[..i] + [c] + s[i + 1..];
    }
  }

  lemma IndexOfAfter(p: string, rest: string, c: char)
    requires c !in p
    ensures c in p + [c] + rest
    ensures IndexOf(p + [c] + rest, c) == |p|
  {
    var s := p + [c] + rest;
    assert s[|p|] == c;
    assert s[..|p|] == p;
  }

  /** Splitting pieces that do not contain `c`, joined by `c`, gives them back. */
  lemma {:induction false} SplitOnJoin(parts: seq<string>, c: char)
    requires |parts| >= 1
    requires forall i :: 0 <= i < |parts| ==> c !in parts[i]
    ensures SplitOn(Join(parts, [c]), c) == parts
  {
    if |parts| > 1 {
      var rest := Join(parts[1..], [c]);
      var s := parts[0] + [c] + rest;
      assert Join(parts, [c]) == s;
      IndexOfAfter(parts[0], rest, c);
      assert s[..|parts[0]|] == parts[0];
      assert s[|parts[0]| + 1..] == rest;
      assert SplitOn(s, c) == [parts[0]] + SplitOn(rest, c);
      SplitOnJoin(parts[1..], c);
      assert parts == [parts[0]] + parts[1..];
    }
  }
}
