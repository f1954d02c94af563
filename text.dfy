/** The string operations of the host language that the formatter relies
    on: whitespace splitting and stripping, joining with a separator,
    replacing every occurrence of a substring, and the decimal text of an
    integer. */
module Text {

  /** The characters the host language counts as whitespace. */
  predicate IsSpace(c: char) {
    ('\t' <= c <= '\r') || ('\U{1C}' <= c <= '\U{20}') || c == '\U{85}' || c == '\U{A0}'
    || c == '\U{1680}' || ('\U{2000}' <= c <= '\U{200A}') || c == '\U{2028}' || c == '\U{2029}'
    || c == '\U{202F}' || c == '\U{205F}' || c == '\U{3000}'
  }

  predicate NoSpace(w: string) {
    forall i :: 0 <= i < |w| ==> !IsSpace(w[i])
  }

  /** A word as the splitter produces it: non-empty, without whitespace. */
  predicate IsWord(w: string) {
    |w| > 0 && NoSpace(w)
  }

  /** `sep.join(parts)`. */
  function Join(sep: string, parts: seq<string>): string
    decreases |parts|
  {
    if |parts| == 0 then ""
    else if |parts| == 1 then parts[0]
    else parts[0] + sep + Join(sep, parts[1..])
  }

  function Reverse<T>(s: seq<T>): (r: seq<T>)
    ensures |r| == |s|
    ensures forall i :: 0 <= i < |s| ==> r[i] == s[|s| - 1 - i]
  {
    if s == [] then [] else Reverse(s[1..]) + [s[0]]
  }

  /** The input without its leading whitespace. */
  function TrimStart(s: string): (r: string)
    ensures |r| <= |s| && r == s[|s| - |r|..]
    ensures r == [] || !IsSpace(r[0])
    ensures forall i :: 0 <= i < |s| - |r| ==> IsSpace(s[i])
  {
    if s == [] || !IsSpace(s[0]) then s else TrimStart(s[1..])
  }

  /** The input without its trailing whitespace. */
  function TrimEnd(s: string): (r: string)
    ensures |r| <= |s| && r == s[..|r|]
    ensures r == [] || !IsSpace(r[|r| - 1])
    ensures forall i :: |r| <= i < |s| ==> IsSpace(s[i])
  {
    if s == [] || !IsSpace(s[|s| - 1]) then s else TrimEnd(s[..|s| - 1])
  }

  /** `s.strip()`. */
  function Strip(s: string): string {
    TrimEnd(TrimStart(s))
  }

  /** The longest whitespace-free prefix. */
  function WordPrefix(s: string): (w: string)
    ensures |w| <= |s| && w == s[..|w|] && NoSpace(w)
    ensures |w| < |s| ==> IsSpace(s[|w|])
    ensures s != [] && !IsSpace(s[0]) ==> |w| > 0
  {
    if s == [] || IsSpace(s[0]) then []
    else
      var w := [s[0]] + WordPrefix(s[1..]);
      assert w == s[..|w|];
      w
  }

  /** `s.split()`: the maximal runs of non-whitespace, in order. */
  function Split(s: string): (ws: seq<string>)
    ensures forall i :: 0 <= i < |ws| ==> IsWord(ws[i])
    decreases |s|
  {
    if s == [] then []
    else if IsSpace(s[0]) then Split(s[1..])
    else
      var w := WordPrefix(s);
      var rest := Split(s[|w|..]);
      assert forall i :: 0 < i <= |rest| ==> ([w] + rest)[i] == rest[i - 1];
      [w] + rest
  }

  /** `s.replace(pat, rep)`: every non-overlapping occurrence of `pat`,
      scanning from the left, is replaced by `rep`; an empty `pat` matches
      before every character and at the end. */
  function ReplaceAll(s: string, pat: string, rep: string): string
    decreases |s|
  {
    if pat == [] then (if s == [] then rep else rep + [s[0]] + ReplaceAll(s[1..], pat, rep))
    else if |s| < |pat| then s
    else if s[..|pat|] == pat then rep + ReplaceAll(s[|pat|..], pat, rep)
    else [s[0]] + ReplaceAll(s[1..], pat, rep)
  }

  /** `pat` starts at position i of s. */
  predicate OccursAt(s: string, pat: string, i: nat) {
    i + |pat| <= |s| && s[i..i + |pat|] == pat
  }

  function DigitChar(d: nat): char
    requires d < 10
  {
    "0123456789"[d]
  }

  predicate IsDigitChar(c: char) {
    '0' <= c <= '9'
  }

  /** The decimal text of a natural number, most significant digit first. */
  function NatToString(n: nat): (s: string)
    ensures |s| > 0 && forall i :: 0 <= i < |s| ==> IsDigitChar(s[i])
  {
    if n < 10 then [DigitChar(n)] else NatToString(n / 10) + [DigitChar(n % 10)]
  }

  /** `str(i)` of an integer. */
  function IntToString(i: int): string {
    if i < 0 then "-" + NatToString(-i) else NatToString(i)
  }

  function ParseNat(s: string): nat
    decreases |s|
  {
    if s == [] then 0
    else
      var c := s[|s| - 1];
      ParseNat(s[..|s| - 1]) * 10 + (if IsDigitChar(c) then (c - '0') as nat else 0)
  }

  /** `int(s)` on the texts IntToString produces. */
  function ParseInt(s: string): int {
    if |s| > 0 && s[0] == '-' then -(ParseNat(s[1..]) as int) else ParseNat(s)
  }

  // ---------------------------------------------------------------------
  // Properties

  lemma {:induction false} ParseNatToString(n: nat)
    ensures ParseNat(NatToString(n)) == n
  {
    if n >= 10 {
      var s := NatToString(n);
      assert s[..|s| - 1] == NatToString(n / 10);
      ParseNatToString(n / 10);
    }
  }

  /** The decimal text of an integer reads back as that integer. */
  lemma IntToStringRoundTrip(i: int)
    ensures ParseInt(IntToString(i)) == i
  {
    if i < 0 {
      var n: nat := -i;
      var d := NatToString(n);
      assert IntToString(i) == "-" + d;
      ParseIntMinus(d);
      ParseNatToString(n);
    } else {
      var n: nat := i;
      var d := NatToString(n);
      assert IntToString(i) == d;
      ParseIntDigits(d);
      ParseNatToString(n);
    }
  }

  lemma ParseIntMinus(d: string)
    ensures ParseInt("-" + d) == -(ParseNat(d) as int)
  {
    assert ("-" + d)[1..] == d;
  }

  lemma ParseIntDigits(d: string)
    requires |d| > 0 && IsDigitChar(d[0])
    ensures ParseInt(d) == ParseNat(d)
  {
  }

  /** Neither whitespace nor '/' occurs in the decimal text of an integer. */
  lemma IntToStringHasNoSeparator(i: int)
    ensures forall k :: 0 <= k < |IntToString(i)| ==>
      !IsSpace(IntToString(i)[k]) && IntToString(i)[k] != '/'
  {
  }

  lemma {:induction false} JoinSingle(sep: string, w: string)
    ensures Join(sep, [w]) == w
  {
  }

  lemma {:induction false} JoinCons(sep: string, w: string, ws: seq<string>)
    requires |ws| > 0
    ensures Join(sep, [w] + ws) == w + sep + Join(sep, ws)
  {
    assert ([w] + ws)[1..] == ws;
  }

  lemma ConcatAssoc(x: string, y: string, z: string)
    ensures (x + y) + z == x + (y + z)
  {
  }

  /** Appending one more part adds one separator. */
  /** A join starts with its first part and ends with its last. */
  lemma {:induction false} JoinBounds(sep: string, ws: seq<string>)
    requires |ws| > 0
    ensures ws[0] <= Join(sep, ws)
    ensures var j, l := Join(sep, ws), ws[|ws| - 1];
      |l| <= |j| && j[|j| - |l|..] == l
    decreases |ws|
  {
    if |ws| > 1 {
      JoinBounds(sep, ws[1..]);
      var rest := Join(sep, ws[1..]);
      var j := Join(sep, ws);
      assert j == (ws[0] + sep) + rest;
      assert ws[1..][|ws[1..]| - 1] == ws[|ws| - 1];
      assert j[|j| - |rest|..] == rest;
    }
  }

  /** Joining two non-empty lists is joining each and putting one
      separator between them. */
  lemma {:induction false} JoinAppend(sep: string, xs: seq<string>, ys: seq<string>)
    requires |xs| > 0 && |ys| > 0
    ensures Join(sep, xs + ys) == Join(sep, xs) + sep + Join(sep, ys)
    decreases |xs|
  {
    assert xs + ys == [xs[0]] + (xs[1..] + ys);
    JoinCons(sep, xs[0], xs[1..] + ys);
    if |xs| == 1 {
      assert xs[1..] + ys == ys;
      JoinSingle(sep, xs[0]);
    } else {
      JoinAppend(sep, xs[1..], ys);
      assert xs == [xs[0]] + xs[1..];
      JoinCons(sep, xs[0], xs[1..]);
    }
  }

  /** The words of every text in xs, in order. */
  function SplitAll(xs: seq<string>): (ws: seq<string>)
    ensures forall i :: 0 <= i < |ws| ==> IsWord(ws[i])
    decreases |xs|
  {
    if xs == [] then [] else Split(xs[0]) + SplitAll(xs[1..])
  }

  /** Every word of SplitAll(xs) is a word of one of the texts. */
  lemma {:induction false} SplitAllFrom(xs: seq<string>, w: string)
    requires w in SplitAll(xs)
    ensures exists i :: 0 <= i < |xs| && w in Split(xs[i])
    decreases |xs|
  {
    if w !in Split(xs[0]) {
      SplitAllFrom(xs[1..], w);
      var i :| 0 <= i < |xs[1..]| && w in Split(xs[1..][i]);
      assert w in Split(xs[i + 1]);
    }
  }

  /** When every text is its own words joined by single spaces, joining
      the texts is joining all their words. */
  lemma {:induction false} JoinSplitAll(xs: seq<string>)
    requires forall i :: 0 <= i < |xs| ==> Split(xs[i]) != [] && Join(" ", Split(xs[i])) == xs[i]
    ensures SplitAll(xs) == [] <==> xs == []
    ensures Join(" ", SplitAll(xs)) == Join(" ", xs)
    decreases |xs|
  {
    if xs != [] {
      var rest := xs[1..];
      assert forall i :: 0 <= i < |rest| ==> rest[i] == xs[i + 1];
      JoinSplitAll(rest);
      assert SplitAll(xs) == Split(xs[0]) + SplitAll(rest);
      if rest == [] {
        assert Split(xs[0]) + [] == Split(xs[0]);
        assert xs == [xs[0]];
        JoinSingle(" ", xs[0]);
      } else {
        JoinSplitStep(xs[0], rest);
        assert xs == [xs[0]] + rest;
      }
    }
  }

  /** One step of `JoinSplitAll`: splitting a head that rejoins to itself
      and prepending it keeps the joined text of the whole list. */
  lemma JoinSplitStep(x: string, rest: seq<string>)
    requires Split(x) != [] && Join(" ", Split(x)) == x
    requires rest != [] && SplitAll(rest) != []
    requires Join(" ", SplitAll(rest)) == Join(" ", rest)
    ensures Join(" ", Split(x) + SplitAll(rest)) == Join(" ", [x] + rest)
  {
    JoinAppend(" ", Split(x), SplitAll(rest));
    JoinCons(" ", x, rest);
  }

  lemma {:induction false} JoinSnoc(sep: string, ws: seq<string>, w: string)
    ensures Join(sep, ws + [w]) == if ws == [] then w else Join(sep, ws) + sep + w
    decreases |ws|
  {
    if |ws| == 1 {
      assert (ws + [w])[1..] == [w];
    } else if |ws| > 1 {
      assert (ws + [w])[1..] == ws[1..] + [w];
      JoinSnoc(sep, ws[1..], w);
    }
  }

  /** The single-space join of words starts with the first word's first
      character and ends with the last word's last character. */
  lemma {:induction false} JoinWordsEnds(ws: seq<string>)
    requires |ws| > 0 && forall i :: 0 <= i < |ws| ==> IsWord(ws[i])
    ensures var j := Join(" ", ws);
      |j| > 0 && |ws[0]| > 0 && |ws[|ws| - 1]| > 0
      && j[0] == ws[0][0] && j[|j| - 1] == ws[|ws| - 1][|ws[|ws| - 1]| - 1]
    decreases |ws|
  {
    if |ws| > 1 {
      JoinWordsEnds(ws[1..]);
    }
  }

  /** Stripping a leading space off the single-space join of words gives
      the join back. */
  lemma JoinWordsStrip(ws: seq<string>)
    requires forall i :: 0 <= i < |ws| ==> IsWord(ws[i])
    ensures Strip(if ws == [] then "" else " " + Join(" ", ws)) == Join(" ", ws)
  {
    if ws != [] {
      var j := Join(" ", ws);
      JoinWordsEnds(ws);
      assert !IsSpace(ws[0][0]);
      assert (" " + j)[1..] == j;
      assert TrimStart(" " + j) == j;
    }
  }

  lemma {:induction false} SplitWordThenRest(w: string, rest: string)
    requires IsWord(w)
    requires rest == [] || IsSpace(rest[0])
    ensures Split(w + rest) == [w] + Split(rest)
  {
    var s := w + rest;
    assert TrimStart(s) == s;
    WordPrefixOfWord(w, rest);
    assert s[|w|..] == rest;
  }

  lemma {:induction false} WordPrefixOfWord(w: string, rest: string)
    requires NoSpace(w)
    requires rest == [] || IsSpace(rest[0])
    ensures WordPrefix(w + rest) == w
    decreases |w|
  {
    if w != [] {
      assert (w + rest)[1..] == w[1..] + rest;
      WordPrefixOfWord(w[1..], rest);
    }
  }

  lemma {:induction false} SplitSpaceThen(s: string)
    requires |s| > 0 && IsSpace(s[0])
    ensures Split(s) == Split(s[1..])
  {
  }

  /** Splitting the single-space join of words gives the words back. */
  lemma {:induction false} SplitJoinRoundTrip(ws: seq<string>)
    requires forall i :: 0 <= i < |ws| ==> IsWord(ws[i])
    ensures Split(Join(" ", ws)) == ws
    decreases |ws|
  {
    if |ws| == 1 {
      SplitOneWord(ws[0]);
      assert ws == [ws[0]];
    } else if |ws| > 1 {
      var tail := ws[1..];
      forall i | 0 <= i < |tail|
        ensures IsWord(tail[i])
      {
        assert tail[i] == ws[i + 1];
      }
      SplitJoinStep(ws);
      SplitJoinRoundTrip(tail);
      assert [ws[0]] + tail == ws;
    }
  }

  lemma {:induction false} SplitOneWord(w: string)
    requires IsWord(w)
    ensures Split(Join(" ", [w])) == [w]
  {
    SplitWordThenRest(w, "");
    assert w + "" == w;
    assert Split("") == [];
  }

  lemma {:induction false} SplitJoinStep(ws: seq<string>)
    requires |ws| > 1 && IsWord(ws[0])
    ensures Split(Join(" ", ws)) == [ws[0]] + Split(Join(" ", ws[1..]))
  {
    var rest := Join(" ", ws[1..]);
    var tail := " " + rest;
    assert Join(" ", ws) == ws[0] + tail;
    assert tail[0] == ' ';
    SplitWordThenRest(ws[0], tail);
    SplitSpaceThen(tail);
    assert tail[1..] == rest;
  }

  /** A text in which `pat` does not occur is left as it is. */
  lemma {:induction false} ReplaceAllAbsent(s: string, pat: string, rep: string)
    requires |pat| > 0
    requires forall i :: 0 <= i <= |s| - |pat| ==> !OccursAt(s, pat, i)
    ensures ReplaceAll(s, pat, rep) == s
    decreases |s|
  {
    if |s| >= |pat| {
      assert !OccursAt(s, pat, 0);
      assert s[0..|pat|] == s[..|pat|];
      forall i | 0 <= i <= |s[1..]| - |pat|
        ensures !OccursAt(s[1..], pat, i)
      {
        assert !OccursAt(s, pat, i + 1);
        assert s[1..][i..i + |pat|] == s[i + 1..i + 1 + |pat|];
      }
      ReplaceAllAbsent(s[1..], pat, rep);
    }
  }

  /** The replacement is global: the leftmost occurrence is replaced and the
      scan carries on behind it. */
  lemma {:induction false} ReplaceAllFirst(a: string, pat: string, b: string, rep: string)
    requires |pat| > 0
    requires forall i :: 0 <= i < |a| ==> !OccursAt(a + pat, pat, i)
    ensures ReplaceAll(a + pat + b, pat, rep) == a + rep + ReplaceAll(b, pat, rep)
    decreases |a|
  {
    if a == [] {
      ReplaceAllHit(pat, b, rep);
      assert a + pat + b == pat + b;
    } else {
      var a' := a[1..];
      ReplaceAllFirstStep(a, pat, b, rep);
      ReplaceAllFirst(a', pat, b, rep);
      ConsAppend(a, rep, ReplaceAll(b, pat, rep));
    }
  }

  lemma ConsAppend(a: string, x: string, y: string)
    requires |a| > 0
    ensures [a[0]] + (a[1..] + x + y) == a + x + y
  {
    assert a == [a[0]] + a[1..];
  }

  lemma ReplaceAllFirstStep(a: string, pat: string, b: string, rep: string)
    requires |pat| > 0 && |a| > 0
    requires forall i :: 0 <= i < |a| ==> !OccursAt(a + pat, pat, i)
    ensures ReplaceAll(a + pat + b, pat, rep) == [a[0]] + ReplaceAll(a[1..] + pat + b, pat, rep)
    ensures forall i :: 0 <= i < |a| - 1 ==> !OccursAt(a[1..] + pat, pat, i)
  {
    var s := a + pat + b;
    assert !OccursAt(a + pat, pat, 0);
    assert (a + pat)[0..|pat|] == s[0..|pat|];
    assert !OccursAt(s, pat, 0);
    ReplaceAllSkip(s, pat, rep);
    assert s[1..] == a[1..] + pat + b;
    ReplaceAllShift(a, pat);
  }

  lemma ReplaceAllHit(pat: string, b: string, rep: string)
    requires |pat| > 0
    ensures ReplaceAll(pat + b, pat, rep) == rep + ReplaceAll(b, pat, rep)
  {
    var s := pat + b;
    assert s[..|pat|] == pat;
    assert s[|pat|..] == b;
  }

  lemma ReplaceAllSkip(s: string, pat: string, rep: string)
    requires |pat| > 0 && |s| >= |pat| && !OccursAt(s, pat, 0)
    ensures ReplaceAll(s, pat, rep) == [s[0]] + ReplaceAll(s[1..], pat, rep)
  {
    assert s[0..|pat|] == s[..|pat|];
  }

  lemma ReplaceAllShift(a: string, pat: string)
    requires |a| > 0
    requires forall i :: 0 <= i < |a| ==> !OccursAt(a + pat, pat, i)
    ensures forall i :: 0 <= i < |a| - 1 ==> !OccursAt(a[1..] + pat, pat, i)
  {
    forall i | 0 <= i < |a| - 1
      ensures !OccursAt(a[1..] + pat, pat, i)
    {
      assert !OccursAt(a + pat, pat, i + 1);
      assert (a[1..] + pat)[i..i + |pat|] == (a + pat)[i + 1..i + 1 + |pat|];
    }
  }

  /** Stripping removes exactly the leading and the trailing whitespace:
      what is left is a slice of the input that neither starts nor ends
      with whitespace, and everything around it is whitespace. */
  lemma StripSpec(s: string)
    ensures var r := Strip(s);
      (r == [] || (!IsSpace(r[0]) && !IsSpace(r[|r| - 1])))
      && exists k :: StrippedAt(s, r, k)
  {
    var t := TrimStart(s);
    var r := TrimEnd(t);
    StrippedFrom(s, t, r);
    if r != [] {
      assert r[0] == t[0];
    }
  }

  /** Trimming whitespace off the front of s to get t, then off the back
      of t to get r, leaves r at offset |s| - |t| of s. */
  lemma StrippedFrom(s: string, t: string, r: string)
    requires |t| <= |s| && t == s[|s| - |t|..]
    requires forall i :: 0 <= i < |s| - |t| ==> IsSpace(s[i])
    requires |r| <= |t| && r == t[..|r|]
    requires forall i :: |r| <= i < |t| ==> IsSpace(t[i])
    ensures StrippedAt(s, r, |s| - |t|)
  {
    var k := |s| - |t|;
    assert s[k..k + |r|] == s[k..][..|r|];
    forall i | k + |r| <= i < |s|
      ensures IsSpace(s[i])
    {
      assert s[i] == t[i - k];
    }
  }

  /** r is s[k..k + |r|] with only whitespace around it. */
  ghost predicate StrippedAt(s: string, r: string, k: nat) {
    && k + |r| <= |s|
    && s[k..k + |r|] == r
    && (forall i :: 0 <= i < k ==> IsSpace(s[i]))
    && (forall i :: k + |r| <= i < |s| ==> IsSpace(s[i]))
  }
}
