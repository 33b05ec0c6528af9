/**
 * The configuration line lists: `users.txt` (one account credential per line)
 * and `proxies.txt` (one proxy URI per line) are both read by
 * `data.split('\n').map(line => line.trim()).filter(line => line)`.
 */
module LineLists {
  import opened Options

  /** The code points JavaScript's `String.prototype.trim` removes: the
    * ECMAScript WhiteSpace (tab, vertical tab, form feed, the Zs category,
    * U+FEFF) and LineTerminator (LF, CR, U+2028, U+2029) characters. */
  const WHITESPACE: set<char> := {
    '\t', '\n', '\U{B}', '\U{C}', '\r', ' ', '\U{A0}', '\U{1680}',
    '\U{2000}', '\U{2001}', '\U{2002}', '\U{2003}', '\U{2004}', '\U{2005}',
    '\U{2006}', '\U{2007}', '\U{2008}', '\U{2009}', '\U{200A}',
    '\U{2028}', '\U{2029}', '\U{202F}', '\U{205F}', '\U{3000}', '\U{FEFF}'
  }

  predicate IsWhitespace(c: char)
  {
    c in WHITESPACE
  }

  /** Every character at positions `lo` to `hi - 1` is whitespace. */
  predicate WhitespaceBetween(s: string, lo: int, hi: int)
    requires 0 <= lo && hi <= |s|
  {
    forall k :: lo <= k < hi ==> IsWhitespace(s[k])
  }

  predicate AllWhitespace(s: string)
  {
    WhitespaceBetween(s, 0, |s|)
  }

  /** Neither the first nor the last character is whitespace. */
  predicate NoEdgeWhitespace(s: string)
  {
    s == [] || (!IsWhitespace(s[0]) && !IsWhitespace(s[|s| - 1]))
  }

  predicate NoNewline(s: string)
  {
    '\n' !in s
  }

  // ---------------------------------------------------------------- trim

  /** Drops the leading whitespace: the result is the suffix of `s` that
    * starts at the first non-whitespace character. */
  function TrimStart(s: string): (r: string)
    ensures |r| <= |s| && r == s[|s| - |r|..]
    ensures WhitespaceBetween(s, 0, |s| - |r|)
    ensures r == [] || !IsWhitespace(r[0])
  {
    if s != [] && IsWhitespace(s[0]) then TrimStart(s[1..]) else s
  }

  /** Drops the trailing whitespace: the result is the prefix of `s` that
    * ends at the last non-whitespace character. */
  function TrimEnd(s: string): (r: string)
    ensures |r| <= |s| && r == s[..|r|]
    ensures WhitespaceBetween(s, |r|, |s|)
    ensures r == [] || !IsWhitespace(r[|r| - 1])
  {
    if s != [] && IsWhitespace(s[|s| - 1]) then TrimEnd(s[..|s| - 1]) else s
  }

  /** `line.trim()`. */
  function Trim(s: string): (r: string)
    ensures |r| <= |s|
    ensures NoEdgeWhitespace(r)
  {
    TrimEnd(TrimStart(s))
  }

  /** Trim keeps a slice of its input between two all-whitespace margins. */
  lemma TrimSlice(s: string) returns (i: nat, j: nat)
    ensures i <= j <= |s| && Trim(s) == s[i..j]
    ensures WhitespaceBetween(s, 0, i) && WhitespaceBetween(s, j, |s|)
  {
    var t := TrimStart(s);
    var r := TrimEnd(t);
    i := |s| - |t|;
    j := i + |r|;
    assert r == s[i..j];
    forall k | j <= k < |s| ensures IsWhitespace(s[k]) {
      assert s[k] == t[k - i];
    }
  }

  /** TrimStart stops at the first non-whitespace character. */
  lemma {:induction false} TrimStartAt(s: string, i: nat)
    requires i <= |s| && WhitespaceBetween(s, 0, i)
    requires i == |s| || !IsWhitespace(s[i])
    ensures TrimStart(s) == s[i..]
  {
    if i > 0 {
      var t := s[1..];
      forall k | 0 <= k < i - 1 ensures IsWhitespace(t[k]) {
        assert t[k] == s[k + 1];
      }
      TrimStartAt(t, i - 1);
      assert t[i - 1..] == s[i..];
    }
  }

  /** TrimEnd stops after the last non-whitespace character. */
  lemma {:induction false} TrimEndAt(s: string, j: nat)
    requires j <= |s| && WhitespaceBetween(s, j, |s|)
    requires j == 0 || !IsWhitespace(s[j - 1])
    ensures TrimEnd(s) == s[..j]
    decreases |s| - j
  {
    if j < |s| {
      var t := s[..|s| - 1];
      TrimEndAt(t, j);
      assert t[..j] == s[..j];
    }
  }

  /** An all-whitespace line trims to the empty string. */
  lemma TrimBlank(s: string)
    requires AllWhitespace(s)
    ensures Trim(s) == []
  {
    TrimStartAt(s, |s|);
  }

  /** The slice Trim keeps is the only one with whitespace margins and
    * non-whitespace ends. */
  lemma TrimUnique(s: string, i: nat, j: nat)
    requires i <= j <= |s|
    requires WhitespaceBetween(s, 0, i) && WhitespaceBetween(s, j, |s|)
    requires NoEdgeWhitespace(s[i..j])
    ensures Trim(s) == s[i..j]
  {
    if i == j {
      TrimBlank(s);
    } else {
      assert s[i..j][0] == s[i] && s[i..j][j - i - 1] == s[j - 1];
      TrimNonBlank(s, i, j);
    }
  }

  lemma TrimNonBlank(s: string, i: nat, j: nat)
    requires i < j <= |s|
    requires WhitespaceBetween(s, 0, i) && WhitespaceBetween(s, j, |s|)
    requires !IsWhitespace(s[i]) && !IsWhitespace(s[j - 1])
    ensures Trim(s) == s[i..j]
  {
    TrimStartAt(s, i);
    TrimEndOfSuffix(s, i, j);
  }

  lemma TrimEndOfSuffix(s: string, i: nat, j: nat)
    requires i < j <= |s|
    requires WhitespaceBetween(s, j, |s|) && !IsWhitespace(s[j - 1])
    ensures TrimEnd(s[i..]) == s[i..j]
  {
    var t := s[i..];
    forall k | j - i <= k < |t| ensures IsWhitespace(t[k]) {
      assert t[k] == s[k + i];
    }
    TrimEndAt(t, j - i);
  }

  /** `trim` leaves an already trimmed string alone. */
  lemma TrimTrimmed(s: string)
    requires NoEdgeWhitespace(s)
    ensures Trim(s) == s
  {
    assert s[0..|s|] == s;
    TrimUnique(s, 0, |s|);
  }

  /** `trim` is idempotent. */
  lemma TrimIdempotent(s: string)
    ensures Trim(Trim(s)) == Trim(s)
  {
    TrimTrimmed(Trim(s));
  }

  /** A line trims to the empty string exactly when it is all whitespace;
    * this is the line the filter drops. */
  lemma TrimEmptyIffWhitespace(s: string)
    ensures Trim(s) == [] <==> AllWhitespace(s)
  {
    var i, j := TrimSlice(s);
    if Trim(s) != [] {
      assert s[i] == Trim(s)[0];
    }
  }

  /** Trimming never introduces a line break. */
  lemma TrimNoNewline(s: string)
    requires NoNewline(s)
    ensures NoNewline(Trim(s))
  {
    var i, j := TrimSlice(s);
    forall k | 0 <= k < |Trim(s)| ensures Trim(s)[k] != '\n' {
      assert Trim(s)[k] == s[i + k];
    }
  }

  // ---------------------------------------------------------------- split

  /** The position of the first line feed. */
  function NewlineIndex(s: string): (i: nat)
    requires !NoNewline(s)
    ensures i < |s| && s[i] == '\n' && NoNewline(s[..i])
  {
    if s[0] == '\n' then 0
    else
      assert s == [s[0]] + s[1..];
      var i := NewlineIndex(s[1..]) + 1;
      assert s[..i] == [s[0]] + s[1..][..i - 1];
      i
  }

  /** `data.split('\n')`: the pieces between line feeds, always at least one. */
  function SplitLines(s: string): (lines: seq<string>)
    ensures |lines| >= 1
    decreases |s|
  {
    if NoNewline(s) then [s]
    else
      var i := NewlineIndex(s);
      [s[..i]] + SplitLines(s[i + 1..])
  }

  /** Joins lines with a line feed between consecutive ones; the inverse of
    * SplitLines. */
  function JoinLines(lines: seq<string>): string
  {
    if lines == [] then []
    else if |lines| == 1 then lines[0]
    else lines[0] + "\n" + JoinLines(lines[1..])
  }

  lemma {:induction false} JoinSplit(s: string)
    ensures JoinLines(SplitLines(s)) == s
    decreases |s|
  {
    if !NoNewline(s) {
      var i := NewlineIndex(s);
      JoinSplit(s[i + 1..]);
      assert s == s[..i] + "\n" + s[i + 1..];
    }
  }

  /** A string without a line feed is one line. */
  lemma SplitSingle(s: string)
    requires NoNewline(s)
    ensures SplitLines(s) == [s]
  {
  }

  /** No piece of a split contains a line feed. */
  lemma {:induction false} SplitPiecesNoNewline(s: string)
    ensures forall k :: 0 <= k < |SplitLines(s)| ==> NoNewline(SplitLines(s)[k])
    decreases |s|
  {
    if !NoNewline(s) {
      SplitPiecesNoNewline(s[NewlineIndex(s) + 1..]);
    }
  }

  /** Only one position can hold the first line feed. */
  lemma FirstNewline(s: string, i: nat, j: nat)
    requires i < |s| && j < |s| && s[i] == '\n' && s[j] == '\n'
    requires NoNewline(s[..i]) && NoNewline(s[..j])
    ensures i == j
  {
    NewlineAfter(s, i, j);
    NewlineAfter(s, j, i);
  }

  lemma NewlineAfter(s: string, i: nat, j: nat)
    requires i < |s| && j <= |s| && s[i] == '\n' && NoNewline(s[..j])
    ensures j <= i
  {
    assert forall k | 0 <= k < j :: s[..j][k] == s[k];
  }

  /** Splitting at a line feed splits the list of lines there. */
  lemma {:induction false} SplitAppend(a: string, b: string)
    ensures SplitLines(a + "\n" + b) == SplitLines(a) + SplitLines(b)
    decreases |a|
  {
    var s := a + "\n" + b;
    if NoNewline(a) {
      assert s[|a|] == '\n' && s[..|a|] == a && s[|a| + 1..] == b;
      FirstNewline(s, NewlineIndex(s), |a|);
    } else {
      var i := NewlineIndex(a);
      assert s[..i] == a[..i] && s[i + 1..] == a[i + 1..] + "\n" + b;
      assert s[..i] == a[..i];
      FirstNewline(s, NewlineIndex(s), i);
      SplitAppend(a[i + 1..], b);
    }
  }

  /** Lines without line feeds survive a join and a split unchanged. */
  lemma {:induction false} SplitJoin(lines: seq<string>)
    requires |lines| >= 1
    requires forall k :: 0 <= k < |lines| ==> NoNewline(lines[k])
    ensures SplitLines(JoinLines(lines)) == lines
  {
    SplitSingle(lines[0]);
    if |lines| > 1 {
      SplitJoin(lines[1..]);
      SplitAppend(lines[0], JoinLines(lines[1..]));
      assert lines == [lines[0]] + lines[1..];
    }
  }

  // ------------------------------------------------------- map and filter

  /** `xs.map(f)`. */
  function Map<T, U>(f: T -> U, xs: seq<T>): (ys: seq<U>)
    ensures |ys| == |xs|
    ensures forall k :: 0 <= k < |xs| ==> ys[k] == f(xs[k])
  {
    if xs == [] then [] else [f(xs[0])] + Map(f, xs[1..])
  }

  /** `xs.filter(keep)`. */
  function Filter<T>(keep: T -> bool, xs: seq<T>): (ys: seq<T>)
    ensures |ys| <= |xs|
    ensures forall k :: 0 <= k < |ys| ==> keep(ys[k]) && ys[k] in xs
  {
    if xs == [] then []
    else
      var rest := Filter(keep, xs[1..]);
      if keep(xs[0]) then [xs[0]] + rest else rest
  }

  lemma {:induction false} MapAppend<T, U>(f: T -> U, a: seq<T>, b: seq<T>)
    ensures Map(f, a + b) == Map(f, a) + Map(f, b)
  {
    if a == [] {
      assert a + b == b;
    } else {
      assert (a + b)[0] == a[0] && (a + b)[1..] == a[1..] + b;
      MapAppend(f, a[1..], b);
    }
  }

  lemma {:induction false} FilterAppend<T>(keep: T -> bool, a: seq<T>, b: seq<T>)
    ensures Filter(keep, a + b) == Filter(keep, a) + Filter(keep, b)
  {
    if a == [] {
      assert a + b == b;
    } else {
      assert (a + b)[0] == a[0] && (a + b)[1..] == a[1..] + b;
      FilterAppend(keep, a[1..], b);
    }
  }

  /** The filter keeps every wanted element, and only those. */
  lemma {:induction false} FilterMember<T>(keep: T -> bool, xs: seq<T>, x: T)
    ensures x in Filter(keep, xs) <==> x in xs && keep(x)
  {
    if xs != [] {
      FilterMember(keep, xs[1..], x);
      assert xs == [xs[0]] + xs[1..];
    }
  }

  /** A property every element has is kept by the filter. */
  lemma {:induction false} FilterPreserves<T>(keep: T -> bool, p: T -> bool, xs: seq<T>)
    requires forall k :: 0 <= k < |xs| ==> p(xs[k])
    ensures forall k :: 0 <= k < |Filter(keep, xs)| ==> p(Filter(keep, xs)[k])
  {
    if xs != [] {
      FilterPreserves(keep, p, xs[1..]);
    }
  }

  /** The filter leaves a list alone when it wants every element. */
  lemma {:induction false} FilterAll<T>(keep: T -> bool, xs: seq<T>)
    requires forall k :: 0 <= k < |xs| ==> keep(xs[k])
    ensures Filter(keep, xs) == xs
  {
    if xs != [] {
      FilterAll(keep, xs[1..]);
    }
  }

  /** A string is truthy exactly when it is non-empty: the test of
    * `.filter(line => line)`. */
  predicate Truthy(s: string)
  {
    s != []
  }

  // ----------------------------------------------------------- the parser

  /** The whole expression at main.js lines 12 and 26:
    * `data.split('\n').map(line => line.trim()).filter(line => line)`. */
  function ParseLines(text: string): (entries: seq<string>)
    ensures forall k :: 0 <= k < |entries| ==> entries[k] != [] && NoEdgeWhitespace(entries[k])
  {
    var trimmed := Map(Trim, SplitLines(text));
    FilterPreserves(Truthy, NoEdgeWhitespace, trimmed);
    Filter(Truthy, trimmed)
  }

  /** Entries never span a line break. */
  lemma ParsedEntriesAreSingleLines(text: string)
    ensures forall k :: 0 <= k < |ParseLines(text)| ==> NoNewline(ParseLines(text)[k])
  {
    var lines := SplitLines(text);
    SplitPiecesNoNewline(text);
    var trimmed := Map(Trim, lines);
    forall k | 0 <= k < |trimmed| ensures NoNewline(trimmed[k]) {
      TrimNoNewline(lines[k]);
    }
    FilterPreserves(Truthy, NoNewline, trimmed);
  }

  /** One line yields its trimmed text, or nothing if it is blank. */
  lemma ParseSingleLine(s: string)
    requires NoNewline(s)
    ensures ParseLines(s) == if AllWhitespace(s) then [] else [Trim(s)]
  {
    SplitSingle(s);
    TrimEmptyIffWhitespace(s);
    assert Map(Trim, [s]) == [Trim(s)];
  }

  /** Order is kept: the entries of two texts joined by a line feed are the
    * entries of the first followed by those of the second. */
  lemma ParseAppend(a: string, b: string)
    ensures ParseLines(a + "\n" + b) == ParseLines(a) + ParseLines(b)
  {
    SplitAppend(a, b);
    MapAppend(Trim, SplitLines(a), SplitLines(b));
    FilterAppend(Truthy, Map(Trim, SplitLines(a)), Map(Trim, SplitLines(b)));
  }

  /** An empty file has no entries. */
  lemma ParseEmpty()
    ensures ParseLines([]) == []
  {
    assert SplitLines([]) == [[]];
    assert Trim([]) == [];
    assert Map(Trim, [[]]) == [[]];
  }

  /** Trimming leaves a list of already trimmed lines alone. */
  lemma {:induction false} TrimAllTrimmed(lines: seq<string>)
    requires forall k :: 0 <= k < |lines| ==> NoEdgeWhitespace(lines[k])
    ensures Map(Trim, lines) == lines
  {
    if lines != [] {
      TrimTrimmed(lines[0]);
      TrimAllTrimmed(lines[1..]);
      assert lines == [lines[0]] + lines[1..];
    }
  }

  /** Writing the entries back one per line and parsing again gives the same
    * entries. */
  lemma ReparseClean(entries: seq<string>)
    requires forall k :: 0 <= k < |entries| ==> entries[k] != [] && NoEdgeWhitespace(entries[k]) && NoNewline(entries[k])
    ensures ParseLines(JoinLines(entries)) == entries
  {
    if entries == [] {
      ParseEmpty();
    } else {
      SplitJoin(entries);
      TrimAllTrimmed(entries);
      FilterAll(Truthy, entries);
    }
  }

  /** A parsed list is a fixed point of the parser. */
  lemma ParseIsFixedPoint(text: string)
    ensures ParseLines(JoinLines(ParseLines(text))) == ParseLines(text)
  {
    ParsedEntriesAreSingleLines(text);
    ReparseClean(ParseLines(text));
  }

  /** `readUserFile` and `readProxyFile`: the file's text when it could be
    * read, `None` when `fs.readFile` threw. */
  function ReadLineFile(contents: Option<string>): (entries: seq<string>)
    ensures contents.None? ==> entries == []
    ensures forall k :: 0 <= k < |entries| ==> entries[k] != [] && NoEdgeWhitespace(entries[k])
  {
    match contents
    case None => []
    case Some(text) => ParseLines(text)
  }
}
