/** Mixed fractions: the search for a small denominator under which a
    number's fractional part is within 0.01 of a whole count, and the
    phrasing of the resulting mixed fraction for display or for speech. */
module MixedFraction {
  import opened Wrappers
  import opened Reals
  import opened Tables
  import opened Text

  /** A mixed fraction `whole num/den`. */
  datatype Mixed = Mixed(whole: int, num: int, den: int)

  /** The denominators tried when the caller gives none: 1 .. 20. */
  const DefaultDenominators: seq<int> := [1, 2, 3, 4, 5, 6, 7, 8, 9, 10, 11, 12, 13, 14, 15, 16, 17, 18, 19, 20]

  /** The denominators searched: the caller's list, or 1 .. 20 when the
      caller gives an empty one. */
  function Denominators(ds: seq<int>): (r: seq<int>)
    ensures |ds| > 0 ==> r == ds
    ensures |ds| == 0 ==> |r| == 20 && forall i :: 0 <= i < 20 ==> r[i] == i + 1
  {
    if |ds| == 0 then DefaultDenominators else ds
  }

  /** v is within 0.01 of the nearest integer. */
  predicate Near(v: real) {
    Abs(v - Round(v) as real) < 0.01
  }

  /** The denominator d fits the fractional part f: f * d is near an
      integer. */
  predicate Fits(f: real, d: int) {
    Near(f * d as real)
  }

  /** The numerator spoken for f under d: f * d rounded. */
  function Numerator(f: real, d: int): int {
    Round(f * d as real)
  }

  /** d = ds[k] is the first denominator that fits f. */
  predicate FirstMatchAt(f: real, ds: seq<int>, k: int) {
    && 0 <= k < |ds|
    && Fits(f, ds[k])
    && forall j :: 0 <= j < k ==> !Fits(f, ds[j])
  }

  /** The first-fit search of the `for`/`else` loop: the rounded numerator
      and the denominator that stopped it, if any did. */
  function FirstFit(f: real, ds: seq<int>): Option<(int, int)>
    decreases |ds|
  {
    if ds == [] then None
    else if Fits(f, ds[0]) then Some((Numerator(f, ds[0]), ds[0]))
    else FirstFit(f, ds[1..])
  }

  /** The distance of x from its integer part. */
  function FracPart(x: real): (f: real)
    ensures f >= 0.0
  {
    Abs(x - Trunc(x) as real)
  }

  /** `convert_to_mixed_fraction(x, ds)`. */
  function MixedFractionOf(x: real, ds: seq<int>): Option<Mixed> {
    var w := Trunc(x);
    if w as real == x then Some(Mixed(w, 0, 1))
    else
      match FirstFit(FracPart(x), Denominators(ds))
      case None => None
      case Some((n, d)) => Some(Mixed(w, n, d))
  }

  /** `convert_to_mixed_fraction`: integral inputs are whole numbers;
      otherwise the denominators are tried in order until one fits. */
  method ConvertToMixedFraction(x: real, ds: seq<int>) returns (r: Option<Mixed>)
    ensures r == MixedFractionOf(x, ds)
  {
    var w := Trunc(x);
    if w as real == x {
      return Some(Mixed(w, 0, 1));
    }
    var f := Abs(x - w as real);
    var dens := ds;
    if |dens| == 0 {
      dens := DefaultDenominators;
    }
    assert f == FracPart(x) && dens == Denominators(ds);
    var i := 0;
    while i < |dens|
      invariant 0 <= i <= |dens|
      invariant FirstFit(f, dens[i..]) == FirstFit(f, dens)
    {
      var numerator := Abs(f) * dens[i] as real;
      FirstFitStep(f, dens, i, numerator);
      if Abs(numerator - Round(numerator) as real) < 0.01 {
        MixedOfFit(x, ds);
        return Some(Mixed(w, Round(numerator), dens[i]));
      }
      i := i + 1;
    }
    assert dens[i..] == [];
    MixedOfFit(x, ds);
    return None;
  }

  /** The result of a non-integral input is read off the search. */
  lemma MixedOfFit(x: real, ds: seq<int>)
    requires Trunc(x) as real != x
    ensures FirstFit(FracPart(x), Denominators(ds)).None? ==> MixedFractionOf(x, ds).None?
    ensures FirstFit(FracPart(x), Denominators(ds)).Some? ==>
      MixedFractionOf(x, ds) == Some(Mixed(Trunc(x),
        FirstFit(FracPart(x), Denominators(ds)).value.0, FirstFit(FracPart(x), Denominators(ds)).value.1))
  {
  }

  /** One denominator of the search: it either stops the search or hands
      it on to the rest of the list. */
  lemma FirstFitStep(f: real, ds: seq<int>, i: int, numerator: real)
    requires f >= 0.0 && 0 <= i < |ds| && numerator == Abs(f) * ds[i] as real
    ensures FirstFit(f, ds[i..]) ==
      if Abs(numerator - Round(numerator) as real) < 0.01 then Some((Round(numerator), ds[i]))
      else FirstFit(f, ds[i + 1..])
  {
    assert ds[i..][0] == ds[i] && ds[i..][1..] == ds[i + 1..];
    var d := ds[i];
    assert numerator == f * (d as real);
    FitsNear(f, d);
  }

  lemma FitsNear(f: real, d: int)
    ensures Fits(f, d) == Near(f * (d as real))
    ensures Numerator(f, d) == Round(f * (d as real))
  {
  }

  // -----------------------------------------------------------------------
  // Properties of the search

  /** The search returns the rounded numerator of the first denominator that
      fits, and fails exactly when none fits. */
  lemma {:induction false} FirstFitSpec(f: real, ds: seq<int>)
    ensures FirstFit(f, ds).None? <==> forall k :: 0 <= k < |ds| ==> !Fits(f, ds[k])
    ensures FirstFit(f, ds).Some? ==>
      exists k :: FirstMatchAt(f, ds, k) && FirstFit(f, ds).value == (Numerator(f, ds[k]), ds[k])
    decreases |ds|
  {
    if ds == [] {
    } else if Fits(f, ds[0]) {
      assert FirstMatchAt(f, ds, 0);
    } else {
      var tail := ds[1..];
      FirstFitSpec(f, tail);
      assert forall k :: 0 <= k < |tail| ==> tail[k] == ds[k + 1];
      if FirstFit(f, tail).Some? {
        var k :| FirstMatchAt(f, tail, k) && FirstFit(f, tail).value == (Numerator(f, tail[k]), tail[k]);
        assert FirstMatchAt(f, ds, k + 1) by {
          forall j | 0 <= j < k + 1
            ensures !Fits(f, ds[j])
          {
            if j > 0 {
              assert ds[j] == tail[j - 1];
            }
          }
        }
      } else {
        forall k | 0 <= k < |ds|
          ensures !Fits(f, ds[k])
        {
          if k > 0 {
            assert ds[k] == tail[k - 1];
          }
        }
      }
    }
  }

  /** An integral input is the whole number with no fraction. */
  lemma MixedIntegral(n: int, ds: seq<int>)
    ensures MixedFractionOf(n as real, ds) == Some(Mixed(n, 0, 1))
  {
    TruncIntegral(n);
  }

  lemma TruncIntegral(n: int)
    ensures Trunc(n as real) == n
  {
    if n >= 0 {
      assert (n as real).Floor == n;
    } else {
      assert (-(n as real)).Floor == -n;
    }
  }

  /** For a non-integral input the result holds the integer part and the
      rounded numerator of the first denominator, in list order (1 .. 20
      when none is given), that brings the fractional part within 0.01 of
      a whole count; there is none exactly when no denominator fits. */
  lemma MixedFirstFit(x: real, ds: seq<int>)
    requires Trunc(x) as real != x
    ensures MixedFractionOf(x, ds).None? <==>
      forall k :: 0 <= k < |Denominators(ds)| ==> !Fits(FracPart(x), Denominators(ds)[k])
    ensures MixedFractionOf(x, ds).Some? ==>
      var m := MixedFractionOf(x, ds).value;
      && m.whole == Trunc(x)
      && (exists k :: FirstMatchAt(FracPart(x), Denominators(ds), k)
           && m.den == Denominators(ds)[k] && m.num == Numerator(FracPart(x), m.den))
  {
    FirstFitSpec(FracPart(x), Denominators(ds));
  }

  /** With a non-negative denominator the numerator is not negative, and
      the fraction num/den is within 0.01/den of the fractional part; so
      `whole` and `num/den` together approximate the magnitude of x. */
  lemma MixedApproximates(x: real, ds: seq<int>)
    requires MixedFractionOf(x, ds).Some?
    ensures var m := MixedFractionOf(x, ds).value;
      && (m.den >= 0 ==> m.num >= 0)
      && (m.den > 0 ==>
            Abs(Abs(x) - (Abs(m.whole as real) + m.num as real / m.den as real)) < 0.01 / m.den as real)
  {
    var m := MixedFractionOf(x, ds).value;
    var w := Trunc(x);
    if w as real != x {
      MixedFits(x, ds);
      var f := FracPart(x);
      MagnitudeSplit(x);
      if m.den >= 0 {
        NumeratorNonNegative(f, m.den);
      }
      if m.den > 0 {
        FitsClose(f, m.den, m.num);
        var d, n := m.den as real, m.num as real;
        assert Abs(x) - (Abs(w as real) + n / d) == f - n / d;
      }
    } else {
      assert m == Mixed(w, 0, 1);
      assert Abs(x) == Abs(w as real);
    }
  }

  /** The mixed fraction of a non-integral input holds its integer part and
      a denominator that fits, with the rounded numerator. */
  lemma MixedFits(x: real, ds: seq<int>)
    requires Trunc(x) as real != x && MixedFractionOf(x, ds).Some?
    ensures var m := MixedFractionOf(x, ds).value;
      m.whole == Trunc(x) && Fits(FracPart(x), m.den) && m.num == Numerator(FracPart(x), m.den)
  {
    MixedFirstFit(x, ds);
  }

  lemma MagnitudeSplit(x: real)
    ensures Abs(x) == Abs(Trunc(x) as real) + FracPart(x)
  {
  }

  lemma NumeratorNonNegative(f: real, d: int)
    requires f >= 0.0 && d >= 0
    ensures Numerator(f, d) >= 0
  {
    assert f * d as real >= 0.0;
  }

  /** A fitting denominator puts the fraction within 0.01/den of f. */
  lemma FitsClose(f: real, den: int, num: int)
    requires den > 0 && Fits(f, den) && num == Numerator(f, den)
    ensures Abs(f - num as real / den as real) < 0.01 / den as real
  {
    var p := f * den as real;
    assert Near(p) && num == Round(p);
    FractionClose(f, den as real, num as real);
  }

  /** |f*d - n| < 0.01 puts n/d within 0.01/d of f. */
  lemma FractionClose(f: real, d: real, n: real)
    requires d > 0.0 && Abs(f * d - n) < 0.01
    ensures Abs(f - n / d) < 0.01 / d
  {
    assert f - n / d == (f * d - n) / d;
  }

  /** Between -1 and 0 the integer part is 0 and carries no sign: such an
      input gives the same mixed fraction as its absolute value. */
  lemma MixedSignLostNearZero(x: real, ds: seq<int>)
    requires -1.0 < x < 0.0
    ensures MixedFractionOf(x, ds) == MixedFractionOf(-x, ds)
    ensures MixedFractionOf(x, ds).Some? ==> MixedFractionOf(x, ds).value.whole == 0
  {
    assert Trunc(x) == 0 && Trunc(-x) == 0;
    assert FracPart(x) == FracPart(-x);
  }

  // -----------------------------------------------------------------------
  // Phrasing

  /** `nice_number(x, speech, ds)`. `rounded` stands for the text of x
      rounded to three decimals, the answer when no denominator fits. A
      speech phrasing whose denominator has no fraction name fails with
      that denominator. The display form never fails and reads back as
      the mixed fraction found. */
  function NiceNumber(x: real, speech: bool, ds: seq<int>, rounded: string): (r: Result<string, int>)
    ensures MixedFractionOf(x, ds).None? ==> r == Success(rounded)
    ensures !speech ==> r.Success?
    ensures r.Failure? ==> speech && r.error !in FractionStrings
    ensures !speech && MixedFractionOf(x, ds).Some? && MixedFractionOf(x, ds).value.num != 0 ==>
      ReadMixed(r.value) == MixedFractionOf(x, ds)
    ensures MixedFractionOf(x, ds).Some? && MixedFractionOf(x, ds).value.num == 0 ==>
      r.Success? && ParseInt(r.value) == MixedFractionOf(x, ds).value.whole
  {
    match MixedFractionOf(x, ds)
    case None => Success(rounded)
    case Some(m) => DisplayReadsBack(m); Phrase(m, speech)
  }

  /** The phrasing of a mixed fraction found by the search. */
  function Phrase(m: Mixed, speech: bool): (r: Result<string, int>)
    ensures r.Failure? <==> speech && m.num != 0 && m.den !in FractionStrings
    ensures r.Failure? ==> r.error == m.den
  {
    if !speech then
      if m.num == 0 then Success(IntToString(m.whole))
      else Success(IntToString(m.whole) + " " + IntToString(m.num) + "/" + IntToString(m.den))
    else if m.num == 0 then Success(IntToString(m.whole))
    else if m.den !in FractionStrings then Failure(m.den)
    else Success(SpokenFraction(m.whole, m.num, FractionStrings[m.den]))
  }

  /** The speech phrasing of a non-zero fraction whose denominator is
      called `name`: "a name" or "num name", preceded by "whole and " when
      the whole number is not zero, with a final "s" when num > 1. */
  function SpokenFraction(whole: int, num: int, name: string): (r: string)
    ensures num == 1 ==> EndsWith(r, "a " + name)
    ensures num > 1 ==> EndsWith(r, " " + name + "s")
    ensures num < 1 ==> EndsWith(r, " " + name)
    ensures whole != 0 ==> IntToString(whole) + " and " <= r
    ensures whole == 0 ==> FractionHead(num) <= r
  {
    var lead := if whole == 0 then "" else IntToString(whole) + " and ";
    var tail := FractionHead(num) + (if num > 1 then " " + name + "s" else if num == 1 then name else " " + name);
    SpokenFractionTail(lead, FractionHead(num), num, name);
    lead + tail
  }

  /** What a spoken fraction says before its name: "a " for one, the
      numeral otherwise. */
  function FractionHead(num: int): string {
    if num == 1 then "a " else IntToString(num)
  }

  lemma SpokenFractionTail(lead: string, head: string, num: int, name: string)
    ensures var r := lead + (head + (if num > 1 then " " + name + "s" else if num == 1 then name else " " + name));
      && (num == 1 && head == "a " ==> EndsWith(r, "a " + name))
      && (num > 1 ==> EndsWith(r, " " + name + "s"))
      && (num < 1 ==> EndsWith(r, " " + name))
      && r[..|lead|] == lead
      && (lead == "" ==> r[..|head|] == head)
  {
    var t := if num > 1 then " " + name + "s" else if num == 1 then name else " " + name;
    var r := lead + (head + t);
    assert r == (lead + head) + t;
    EndsWithConcat(lead + head, t);
    assert r[..|lead|] == lead;
    if lead == "" {
      assert r == head + t;
      assert r[..|head|] == head;
    }
    if num == 1 && head == "a " {
      assert r == lead + ("a " + name);
      EndsWithConcat(lead, "a " + name);
    }
  }

  /** The first index of c in s, or |s| when c does not occur. */
  function IndexOf(s: string, c: char): (i: nat)
    ensures i <= |s| && (i < |s| ==> s[i] == c)
    ensures forall j :: 0 <= j < i ==> s[j] != c
  {
    if s == [] then 0 else if s[0] == c then 0 else 1 + IndexOf(s[1..], c)
  }

  /** Reads a displayed mixed fraction `whole num/den` back. */
  function ReadMixed(s: string): Option<Mixed> {
    var i := IndexOf(s, ' ');
    if i == |s| then None
    else
      var rest := s[i + 1..];
      var j := IndexOf(rest, '/');
      if j == |rest| then None
      else Some(Mixed(ParseInt(s[..i]), ParseInt(rest[..j]), ParseInt(rest[j + 1..])))
  }

  lemma {:induction false} IndexOfAfter(a: string, c: char, b: string)
    requires forall k :: 0 <= k < |a| ==> a[k] != c
    ensures IndexOf(a + [c] + b, c) == |a|
    decreases |a|
  {
    if a != [] {
      assert (a + [c] + b)[1..] == a[1..] + [c] + b;
      IndexOfAfter(a[1..], c, b);
    }
  }

  /** The display form reads back as the mixed fraction it shows: the whole
      number alone when there is no fraction, `whole num/den` otherwise. */
  lemma DisplayReadsBack(m: Mixed)
    ensures Phrase(m, false).Success?
    ensures m.num == 0 ==> ParseInt(Phrase(m, false).value) == m.whole
    ensures m.num != 0 ==> ReadMixed(Phrase(m, false).value) == Some(m)
  {
    IntToStringRoundTrip(m.whole);
    if m.num != 0 {
      var ws, ns, dn := IntToString(m.whole), IntToString(m.num), IntToString(m.den);
      IntToStringHasNoSeparator(m.whole);
      IntToStringHasNoSeparator(m.num);
      IntToStringRoundTrip(m.num);
      IntToStringRoundTrip(m.den);
      ReadMixedOf(ws, ns, dn);
    }
  }

  /** `whole num/den` reads back into its three numerals when the whole
      numeral holds no blank and the numerator numeral no '/'. */
  lemma ReadMixedOf(ws: string, ns: string, dn: string)
    requires forall k :: 0 <= k < |ws| ==> ws[k] != ' '
    requires forall k :: 0 <= k < |ns| ==> ns[k] != '/'
    ensures ReadMixed(ws + " " + ns + "/" + dn) == Some(Mixed(ParseInt(ws), ParseInt(ns), ParseInt(dn)))
  {
    var s := ws + " " + ns + "/" + dn;
    var rest := ns + "/" + dn;
    assert s == ws + [' '] + rest;
    IndexOfAfter(ws, ' ', rest);
    assert s[..|ws|] == ws;
    assert s[|ws| + 1..] == rest;
    assert rest == ns + ['/'] + dn;
    IndexOfAfter(ns, '/', dn);
    assert rest[..|ns|] == ns;
    assert rest[|ns| + 1..] == dn;
  }

  /** No fraction name ends in "s". */
  lemma FractionNamesSingular(d: int)
    requires d in FractionStrings
    ensures |FractionStrings[d]| > 0 && FractionStrings[d][|FractionStrings[d]| - 1] != 's'
  {
  }

  predicate EndsWith(s: string, t: string) {
    |t| <= |s| && s[|s| - |t|..] == t
  }

  lemma EndsWithConcat(a: string, t: string)
    ensures EndsWith(a + t, t)
  {
    assert (a + t)[|a|..] == t;
  }

  /** A spoken fraction ends in "s" exactly when the numerator is above
      one, because no fraction name does. */
  lemma SpokenFractionShape(whole: int, num: int, name: string)
    requires |name| > 0 && name[|name| - 1] != 's'
    ensures var s := SpokenFraction(whole, num, name);
      |s| > 0 && (s[|s| - 1] == 's' <==> num > 1)
  {
    var s := SpokenFraction(whole, num, name);
    var t := if num == 1 then "a " + name else if num > 1 then " " + name + "s" else " " + name;
    assert EndsWith(s, t);
    assert t[|t| - 1] == if num > 1 then 's' else name[|name| - 1];
    assert s[|s| - 1] == s[|s| - |t|..][|t| - 1];
  }

  /** 4.995 is within 0.01 of 5 = 5/1, so the default search stops at
      denominator 1 with the mixed fraction 4 1/1, which has no spoken
      fraction name. */
  lemma NiceNumberWholeFraction()
    ensures MixedFractionOf(4.995, []) == Some(Mixed(4, 1, 1))
    ensures NiceNumber(4.995, false, [], "4.995") == Success("4 1/1")
    ensures NiceNumber(4.995, true, [], "4.995") == Failure(1)
  {
    assert Trunc(4.995) == 4;
    assert FracPart(4.995) == 0.995;
    assert Denominators([]) == DefaultDenominators;
    assert DefaultDenominators[0] == 1;
    assert Round(0.995) == 1;
    assert Fits(0.995, 1) by {
      FitsNear(0.995, 1);
    }
    assert FirstFit(0.995, DefaultDenominators) == Some((1, 1)) by {
      FitsNear(0.995, 1);
    }
    assert MixedFractionOf(4.995, []) == Some(Mixed(4, 1, 1));
    assert DigitChar(4) == '4' && DigitChar(1) == '1';
    assert IntToString(4) == "4" && IntToString(1) == "1";
    assert 1 !in FractionStrings;
    assert "4" + " " + "1" + "/" + "1" == "4 1/1";
    assert Phrase(Mixed(4, 1, 1), false) == Success("4 1/1");
  }
}
