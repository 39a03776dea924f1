/**
 * Text handling of the tracklist reader: the whitespace normalisation of each
 * line, the search for separator dashes and the split of a line at a dash.
 */
module ReaderText {
  import opened Common

  // ---------------------------------------------------------------------------
  // Line normalisation: `' '.join(line.split())`
  // ---------------------------------------------------------------------------

  /** The characters `str.split()` with no argument treats as whitespace. */
  predicate IsSpace(c: char)
  {
    var n := c as int;
    (9 <= n <= 13) || (28 <= n <= 32) || n == 0x85 || n == 0xA0 || n == 0x1680
    || (0x2000 <= n <= 0x200A) || n == 0x2028 || n == 0x2029 || n == 0x202F || n == 0x205F || n == 0x3000
  }

  /** A word of `str.split()`: non-empty and free of whitespace. */
  predicate IsWord(w: string)
  {
    |w| > 0 && forall i :: 0 <= i < |w| ==> !IsSpace(w[i])
  }

  /** Length of the run of non-whitespace characters that starts `s`. */
  function WordLen(s: string): (n: nat)
    ensures n <= |s|
    ensures forall i :: 0 <= i < n ==> !IsSpace(s[i])
    ensures n < |s| ==> IsSpace(s[n])
  {
    if s == [] || IsSpace(s[0]) then 0 else 1 + WordLen(s[1..])
  }

  /** `s.split()`: the maximal runs of non-whitespace characters, in order. */
  function Words(s: string): (r: seq<string>)
    ensures forall k :: 0 <= k < |r| ==> IsWord(r[k])
    decreases |s|
  {
    if s == [] then []
    else if IsSpace(s[0]) then Words(s[1..])
    else
      var n := WordLen(s);
      assert IsWord(s[..n]);
      [s[..n]] + Words(s[n..])
  }

  /** `' '.join(ws)`. */
  function JoinSpace(ws: seq<string>): string
  {
    if |ws| == 0 then ""
    else if |ws| == 1 then ws[0]
    else ws[0] + " " + JoinSpace(ws[1..])
  }

  /** The normalisation `readline` applies to each line of the file. */
  function Normalize(line: string): string
  {
    JoinSpace(Words(line))
  }

  /** What `readline` yields: no outer whitespace, single plain spaces between words. */
  predicate NormalForm(s: string)
  {
    (s != [] ==> !IsSpace(s[0]) && !IsSpace(s[|s| - 1]))
    && (forall i :: 0 <= i < |s| && IsSpace(s[i]) ==> s[i] == ' ')
    && (forall i :: 0 <= i < |s| - 1 && s[i] == ' ' ==> s[i + 1] != ' ')
  }

  /** The generator `readline`: normalised lines, blank ones dropped. */
  function Readline(lines: seq<string>): (r: seq<string>)
    ensures |r| <= |lines|
    ensures forall k :: 0 <= k < |r| ==> r[k] != "" && NormalForm(r[k])
  {
    if lines == [] then []
    else
      var l := Normalize(lines[0]);
      NormalizeNormalForm(lines[0]);
      if l == "" then Readline(lines[1..]) else [l] + Readline(lines[1..])
  }

  lemma {:induction false} JoinSpaceShape(ws: seq<string>)
    requires forall k :: 0 <= k < |ws| ==> IsWord(ws[k])
    ensures ws == [] <==> JoinSpace(ws) == []
    ensures ws != [] ==> IsWord(ws[0]) && IsWord(ws[|ws| - 1])
    ensures ws != [] ==> JoinSpace(ws)[0] == ws[0][0]
    ensures ws != [] ==> JoinSpace(ws)[|JoinSpace(ws)| - 1] == ws[|ws| - 1][|ws[|ws| - 1]| - 1]
    ensures NormalForm(JoinSpace(ws))
  {
    if |ws| > 1 {
      JoinSpaceShape(ws[1..]);
      var w, t := ws[0], JoinSpace(ws[1..]);
      var j := w + " " + t;
      assert j == JoinSpace(ws);
      forall i | 0 <= i < |j| && IsSpace(j[i])
        ensures j[i] == ' '
      {
        if i > |w| { assert j[i] == t[i - |w| - 1]; }
      }
      forall i | 0 <= i < |j| - 1 && j[i] == ' '
        ensures j[i + 1] != ' '
      {
        if i > |w| { assert j[i] == t[i - |w| - 1]; assert j[i + 1] == t[i - |w|]; }
      }
    }
  }

  /** A normalised line is in normal form. */
  lemma NormalizeNormalForm(line: string)
    ensures NormalForm(Normalize(line))
  {
    JoinSpaceShape(Words(line));
  }

  lemma {:induction false} WordLenOfWord(w: string, t: string)
    requires IsWord(w)
    requires t == [] || IsSpace(t[0])
    ensures WordLen(w + t) == |w|
  {
    if |w| > 1 {
      assert (w + t)[1..] == w[1..] + t;
      WordLenOfWord(w[1..], t);
    } else {
      assert (w + t)[1..] == t;
    }
  }

  lemma WordsAfterWord(w: string, t: string)
    requires IsWord(w)
    requires t == [] || IsSpace(t[0])
    ensures Words(w + t) == [w] + Words(t)
  {
    WordLenOfWord(w, t);
    assert (w + t)[..|w|] == w;
    assert (w + t)[|w|..] == t;
  }

  /** Splitting what was joined gives back the words: `' '.join(ws).split() == ws`. */
  lemma {:induction false} WordsOfJoin(ws: seq<string>)
    requires forall k :: 0 <= k < |ws| ==> IsWord(ws[k])
    ensures Words(JoinSpace(ws)) == ws
  {
    if |ws| == 1 {
      WordsAfterWord(ws[0], []);
      assert ws[0] + [] == ws[0];
    } else if |ws| > 1 {
      WordsOfJoin(ws[1..]);
      var t := JoinSpace(ws[1..]);
      assert ws[0] + " " + t == ws[0] + (" " + t);
      WordsAfterWord(ws[0], " " + t);
      assert (" " + t)[1..] == t;
      assert ws == [ws[0]] + ws[1..];
    }
  }

  /** Normalisation keeps the words of the line and is idempotent. */
  lemma NormalizeKeepsWords(line: string)
    ensures Words(Normalize(line)) == Words(line)
    ensures Normalize(Normalize(line)) == Normalize(line)
  {
    WordsOfJoin(Words(line));
  }

  /** A line is dropped by `readline` exactly when it is all whitespace. */
  lemma {:induction false} NormalizeBlank(line: string)
    ensures Normalize(line) == "" <==> forall i :: 0 <= i < |line| ==> IsSpace(line[i])
  {
    JoinSpaceShape(Words(line));
    if line != [] {
      NormalizeBlank(line[1..]);
      if !IsSpace(line[0]) {
        assert Words(line) != [];
      } else {
        assert forall i :: 1 <= i < |line| ==> line[i] == line[1..][i - 1];
      }
    }
  }

  // ---------------------------------------------------------------------------
  // Separator dashes: `find_dashes`
  // ---------------------------------------------------------------------------

  /** The separators searched for, in the order the code scans them: hyphen, en dash, em dash. */
  const Separators: seq<string> := [" - ", " \U{2013} ", " \U{2014} "]

  /** A match as `(m.start(), m.end())`. */
  datatype Span = Span(start: nat, end: nat)

  predicate Occurs(s: string, d: string, p: nat)
  {
    p + |d| <= |s| && s[p..p + |d|] == d
  }

  /** `re.finditer(d, s)` from position `pos`: left to right, without overlaps. */
  function FindIter(s: string, d: string, pos: nat): seq<Span>
    requires |d| == 3
    decreases |s| - pos
  {
    if pos + 3 > |s| then []
    else if s[pos..pos + 3] == d then [Span(pos, pos + 3)] + FindIter(s, d, pos + 3)
    else FindIter(s, d, pos + 1)
  }

  /** Each span of `r` is an occurrence of `d` at or after `pos`, and the spans do not overlap. */
  predicate MatchesFrom(s: string, d: string, pos: nat, r: seq<Span>)
  {
    (forall k :: 0 <= k < |r| ==> pos <= r[k].start && r[k].end == r[k].start + 3 && Occurs(s, d, r[k].start))
    && (forall k :: 0 <= k < |r| - 1 ==> r[k].end <= r[k + 1].start)
  }

  /** Every match found is an occurrence at or after `pos`, and the matches do not overlap. */
  lemma {:induction false} FindIterFacts(s: string, d: string, pos: nat)
    requires |d| == 3
    ensures MatchesFrom(s, d, pos, FindIter(s, d, pos))
    decreases |s| - pos
  {
    if pos + 3 <= |s| {
      if s[pos..pos + 3] == d {
        FindIterFacts(s, d, pos + 3);
        var r, tail := FindIter(s, d, pos), FindIter(s, d, pos + 3);
        assert r == [Span(pos, pos + 3)] + tail;
        assert Occurs(s, d, pos);
        assert forall k :: 1 <= k < |r| ==> r[k] == tail[k - 1];
      } else {
        FindIterFacts(s, d, pos + 1);
      }
    }
  }

  /** Every occurrence at or after `pos` is found, or lies inside a match found before it. */
  lemma {:induction false} FindIterComplete(s: string, d: string, pos: nat, q: nat)
    requires |d| == 3 && pos <= q && Occurs(s, d, q)
    ensures Span(q, q + 3) in FindIter(s, d, pos)
      || exists k :: 0 <= k < |FindIter(s, d, pos)| && FindIter(s, d, pos)[k].start < q < FindIter(s, d, pos)[k].end
    decreases |s| - pos
  {
    var r := FindIter(s, d, pos);
    if s[pos..pos + 3] == d {
      if q >= pos + 3 {
        FindIterComplete(s, d, pos + 3, q);
        var tail := FindIter(s, d, pos + 3);
        assert r == [Span(pos, pos + 3)] + tail;
        if Span(q, q + 3) !in tail {
          var k :| 0 <= k < |tail| && tail[k].start < q < tail[k].end;
          assert r[k + 1] == tail[k];
        }
      } else if q > pos {
        assert r[0] == Span(pos, pos + 3);
      }
    } else {
      FindIterComplete(s, d, pos + 1, q);
    }
  }

  /** Python's tuple order on spans. */
  predicate SpanLe(a: Span, b: Span)
  {
    a.start < b.start || (a.start == b.start && a.end <= b.end)
  }

  predicate SortedSpans(xs: seq<Span>)
  {
    forall k :: 0 <= k < |xs| - 1 ==> SpanLe(xs[k], xs[k + 1])
  }

  function Insert(x: Span, xs: seq<Span>): seq<Span>
  {
    if xs == [] then [x]
    else if SpanLe(x, xs[0]) then [x] + xs
    else [xs[0]] + Insert(x, xs[1..])
  }

  /** `list.sort()` on spans (insertion sort; equal spans are interchangeable). */
  function SortSpans(xs: seq<Span>): seq<Span>
  {
    if xs == [] then [] else Insert(xs[0], SortSpans(xs[1..]))
  }

  lemma {:induction false} InsertProperties(x: Span, xs: seq<Span>)
    ensures multiset(Insert(x, xs)) == multiset(xs) + multiset{x}
    ensures SortedSpans(xs) ==> SortedSpans(Insert(x, xs))
    ensures |Insert(x, xs)| == |xs| + 1
    ensures Insert(x, xs)[0] == x || (xs != [] && Insert(x, xs)[0] == xs[0])
  {
    if xs != [] && !SpanLe(x, xs[0]) {
      InsertProperties(x, xs[1..]);
      assert xs == [xs[0]] + xs[1..];
    }
  }

  /** Sorting is a permutation into tuple order. */
  lemma {:induction false} SortSpansProperties(xs: seq<Span>)
    ensures multiset(SortSpans(xs)) == multiset(xs)
    ensures SortedSpans(SortSpans(xs))
  {
    if xs != [] {
      SortSpansProperties(xs[1..]);
      InsertProperties(xs[0], SortSpans(xs[1..]));
      assert xs == [xs[0]] + xs[1..];
    }
  }

  /** Every match of every separator, as the code gathers them before sorting. */
  function AllMatches(s: string): seq<Span>
  {
    FindIter(s, Separators[0], 0) + FindIter(s, Separators[1], 0) + FindIter(s, Separators[2], 0)
  }

  /** `find_dashes(s)`: the separator matches, sorted by position. */
  function Dashes(s: string): seq<Span>
  {
    SortSpans(AllMatches(s))
  }

  /** `find_dashes` as the code runs it: one `finditer` loop per separator, then a sort. */
  method FindDashes(source: string) returns (indexes: seq<Span>)
    ensures indexes == Dashes(source)
  {
    indexes := [];
    for j := 0 to |Separators|
      invariant j == 0 ==> indexes == []
      invariant j == 1 ==> indexes == FindIter(source, Separators[0], 0)
      invariant j == 2 ==> indexes == FindIter(source, Separators[0], 0) + FindIter(source, Separators[1], 0)
      invariant j == 3 ==> indexes == AllMatches(source)
    {
      indexes := indexes + FindIter(source, Separators[j], 0);
    }
    indexes := SortSpans(indexes);
  }

  lemma SeparatorFacts()
    ensures forall j :: 0 <= j < |Separators| ==> |Separators[j]| == 3
    ensures forall j :: 0 <= j < |Separators| ==> Separators[j][0] == ' ' && Separators[j][2] == ' '
    ensures forall i, j :: 0 <= i < j < |Separators| ==> Separators[i][1] != Separators[j][1]
  {
  }

  /** Sorting keeps exactly the matches that were found. */
  lemma DashesMembers(s: string, x: Span)
    ensures x in Dashes(s) <==> x in AllMatches(s)
  {
    var r, a := Dashes(s), AllMatches(s);
    SortSpansProperties(a);
    assert x in r <==> x in multiset(r);
    assert x in a <==> x in multiset(a);
  }

  lemma FindIterMember(s: string, d: string, x: Span)
    requires |d| == 3 && x in FindIter(s, d, 0)
    ensures x.end == x.start + 3 <= |s| && s[x.start..x.end] == d
  {
    FindIterFacts(s, d, 0);
    var k :| 0 <= k < |FindIter(s, d, 0)| && FindIter(s, d, 0)[k] == x;
  }

  /** Each span is a match of one separator. */
  lemma DashesAreSeparators(s: string, x: Span)
    requires x in Dashes(s)
    ensures x.end == x.start + 3 <= |s|
    ensures s[x.start..x.end] in Separators
    ensures s[x.start] == ' ' && s[x.end - 1] == ' '
  {
    DashesMembers(s, x);
    SeparatorFacts();
    var a, b, c := FindIter(s, Separators[0], 0), FindIter(s, Separators[1], 0), FindIter(s, Separators[2], 0);
    assert x in a || x in b || x in c;
    var j := if x in a then 0 else if x in b then 1 else 2;
    FindIterMember(s, Separators[j], x);
    assert s[x.start] == s[x.start..x.end][0] && s[x.end - 1] == s[x.start..x.end][2];
  }

  /** Every separator occurrence is reported, unless it overlaps an earlier match of the same separator. */
  lemma DashesComplete(s: string, j: nat, q: nat)
    requires j < |Separators| && Occurs(s, Separators[j], q)
    ensures Span(q, q + 3) in Dashes(s)
      || exists k :: 0 <= k < |FindIter(s, Separators[j], 0)|
           && FindIter(s, Separators[j], 0)[k].start < q < FindIter(s, Separators[j], 0)[k].end
  {
    FindIterComplete(s, Separators[j], 0, q);
    DashesMembers(s, Span(q, q + 3));
  }

  /** `find_dashes` reports each position at most once, so its result is strictly increasing. */
  lemma DashesStrictlyIncreasing(s: string)
    ensures forall k :: 0 <= k < |Dashes(s)| - 1 ==> Dashes(s)[k].start < Dashes(s)[k + 1].start
  {
    var r := Dashes(s);
    forall k | 0 <= k < |r| - 1
      ensures r[k].start < r[k + 1].start
    {
      DashesAreSeparators(s, r[k]);
      DashesAreSeparators(s, r[k + 1]);
      AllMatchesUnique(s, r[k]);
      SortSpansProperties(AllMatches(s));
      AdjacentDistinct(r, k);
    }
  }

  lemma AdjacentDistinct(r: seq<Span>, k: nat)
    requires k + 1 < |r| && multiset(r)[r[k]] <= 1
    ensures r[k] != r[k + 1]
  {
    var a, b := r[..k], r[k + 2..];
    assert r == a + [r[k], r[k + 1]] + b;
    assert multiset(r) == multiset(a) + multiset{r[k], r[k + 1]} + multiset(b);
  }

  lemma FindIterUnique(s: string, d: string, pos: nat, x: Span)
    requires |d| == 3
    ensures multiset(FindIter(s, d, pos))[x] <= 1
    decreases |s| - pos
  {
    if pos + 3 <= |s| {
      if s[pos..pos + 3] == d {
        FindIterUnique(s, d, pos + 3, x);
        FindIterFacts(s, d, pos + 3);
        assert x == Span(pos, pos + 3) ==> x !in FindIter(s, d, pos + 3);
      } else {
        FindIterUnique(s, d, pos + 1, x);
      }
    }
  }

  /** The middle character of a match tells which separator it is. */
  lemma MatchMiddle(s: string, j: nat, x: Span)
    requires j < |Separators|
    ensures x in FindIter(s, Separators[j], 0) ==> x.start + 1 < |s| && s[x.start + 1] == Separators[j][1]
  {
    SeparatorFacts();
    if x in FindIter(s, Separators[j], 0) {
      FindIterMember(s, Separators[j], x);
      assert s[x.start + 1] == s[x.start..x.end][1];
    }
  }

  lemma AllMatchesUnique(s: string, x: Span)
    ensures multiset(AllMatches(s))[x] <= 1
  {
    SeparatorFacts();
    var a, b, c := FindIter(s, Separators[0], 0), FindIter(s, Separators[1], 0), FindIter(s, Separators[2], 0);
    FindIterUnique(s, Separators[0], 0, x);
    FindIterUnique(s, Separators[1], 0, x);
    FindIterUnique(s, Separators[2], 0, x);
    MatchMiddle(s, 0, x);
    MatchMiddle(s, 1, x);
    MatchMiddle(s, 2, x);
    assert multiset(AllMatches(s)) == multiset(a) + multiset(b) + multiset(c);
  }

  // ---------------------------------------------------------------------------
  // `split_on_dash`
  // ---------------------------------------------------------------------------

  /** `s[:n]` with Python's clamping of an index past the end. */
  function Prefix(s: string, n: nat): string { if n <= |s| then s[..n] else s }

  /** `s[n:]` with Python's clamping of an index past the end. */
  function Suffix(s: string, n: nat): string { if n <= |s| then s[n..] else "" }

  /**
   * `split_on_dash(source, splits, index)`: the text before and after the chosen span;
   * `None` is the `IndexError` of an index outside `splits`.
   */
  function SplitOnDash(source: string, splits: seq<Span>, index: int): (r: Option<(string, string)>)
    ensures r.Some? <==> -|splits| <= index < |splits|
  {
    if index < -|splits| || |splits| <= index then None
    else
      var x := if index < 0 then splits[|splits| + index] else splits[index];
      Some((Prefix(source, x.start), Suffix(source, x.end)))
  }

  /** Splitting at a reported dash cuts the line into artist, separator and title. */
  lemma SplitOnDashReconstructs(source: string, x: Span)
    requires x in Dashes(source)
    ensures x.start <= x.end <= |source| && source[x.start..x.end] in Separators
    ensures SplitOnDash(source, [x], 0) == Some((source[..x.start], source[x.end..]))
    ensures source[..x.start] + source[x.start..x.end] + source[x.end..] == source
  {
    DashesAreSeparators(source, x);
    ThreeParts(source, x.start, x.end);
  }

  lemma ThreeParts(s: string, a: nat, b: nat)
    requires a <= b <= |s|
    ensures s[..a] + s[a..b] + s[b..] == s
  {
  }

  /** A line in normal form never starts or ends at a dash, so both sides of a split are non-empty. */
  lemma SplitOfNormalLine(source: string, x: Span)
    requires NormalForm(source) && x in Dashes(source)
    ensures Prefix(source, x.start) != "" && Suffix(source, x.end) != ""
  {
    DashesAreSeparators(source, x);
    SpacedSplit(source, x);
  }

  lemma SpacedSplit(source: string, x: Span)
    requires NormalForm(source) && x.start < x.end <= |source| && source[x.start] == ' ' && source[x.end - 1] == ' '
    ensures Prefix(source, x.start) != "" && Suffix(source, x.end) != ""
  {
    assert IsSpace(source[x.start]) && IsSpace(source[x.end - 1]);
    assert 0 < x.start && x.end < |source|;
    assert |Prefix(source, x.start)| == x.start && |Suffix(source, x.end)| == |source| - x.end;
  }
}
