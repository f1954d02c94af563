/** The number-word engine: the spoken English form of a number, by
    base-1000 groups, in the short or the long scale, with a sign word and
    a bounded number of decimal digit words. */
module Pronounce {
  import opened Wrappers
  import opened Tables
  import opened Text
  import opened Reals

  /** `digits`: the names of 0..19. */
  function DigitName(n: nat): string
    requires n < 20
  {
    NumStrings[n]
  }

  /** `tens`: the names of 10, 20, .., 90; `tens[q - 1]` names 10q. */
  const Tens: seq<string> := [
    NumStrings[10], NumStrings[20], NumStrings[30], NumStrings[40], NumStrings[50],
    NumStrings[60], NumStrings[70], NumStrings[80], NumStrings[90]]

  // -----------------------------------------------------------------------
  // Numbers below one thousand

  /** `_sub_thousand`: the words of 0..999. Every such number has words,
      so only a zero group gives an empty part in the short scale. */
  function SubThousand(n: nat): (s: string)
    requires n <= 999
    ensures |s| > 0
  {
    if n <= 19 then
      NumStringsDomain(n);
      NamesNonEmpty(n);
      DigitName(n)
    else if n <= 99 then
      TensNonEmpty(n / 10);
      Tens[n / 10 - 1] + (if n % 10 != 0 then " " + SubThousand(n % 10) else "")
    else
      DigitName(n / 100) + " hundred" + (if n % 100 != 0 then " and " + SubThousand(n % 100) else "")
  }

  lemma TensNonEmpty(q: nat)
    requires 1 <= q <= 9
    ensures |Tens[q - 1]| > 0
  {
    TensName(q);
    NamesNonEmpty(10 * q);
  }

  /** A number from 21 to 99 that is not a multiple of ten is spoken as
      the table's name of its tens followed by the name of its units. */
  lemma SubThousandTensUnits(n: nat)
    requires 20 < n < 100 && n % 10 != 0
    ensures 10 * (n / 10) in NumStrings && n % 10 in NumStrings
    ensures SubThousand(n) == NumStrings[10 * (n / 10)] + " " + NumStrings[n % 10]
  {
    var q, u := n / 10, n % 10;
    TensUnitsKeys(n);
    TensName(q);
    SubThousandTens(n);
    SubThousandDigit(u);
  }

  lemma SubThousandTens(n: nat)
    requires 20 < n < 100 && n % 10 != 0
    ensures SubThousand(n) == Tens[n / 10 - 1] + " " + SubThousand(n % 10)
  {
  }

  lemma SubThousandDigit(u: nat)
    requires u <= 19
    ensures SubThousand(u) == DigitName(u)
  {
  }

  lemma TensUnitsKeys(n: nat)
    requires 20 < n < 100
    ensures n - n % 10 == 10 * (n / 10)
    ensures n - n % 10 in NumStrings && n % 10 in NumStrings
  {
    NumStringsDomain(n - n % 10);
    NumStringsDomain(n % 10);
  }

  /** A whole number of hundreds is spoken as the name of its digit
      followed by " hundred". */
  lemma SubThousandHundreds(n: nat)
    requires 100 <= n <= 999 && n % 100 == 0
    ensures n / 100 in NumStrings
    ensures SubThousand(n) == NumStrings[n / 100] + " hundred"
  {
    NumStringsDomain(n / 100);
    assert SubThousand(n) == DigitName(n / 100) + " hundred" + "";
  }

  // -----------------------------------------------------------------------
  // Base-1000 groups

  /** The base-1000 digits of n, least significant first. */
  function Groups(n: nat): (gs: seq<nat>)
    ensures forall i :: 0 <= i < |gs| ==> gs[i] < 1000
    decreases n
  {
    if n == 0 then [] else [n % 1000] + Groups(n / 1000)
  }

  /** The number whose base-1000 digits, least significant first, are gs. */
  function GroupsValue(gs: seq<nat>): nat {
    if gs == [] then 0 else gs[0] + 1000 * GroupsValue(gs[1..])
  }

  /** `_split_by_thousands` (and `_split_by_millions`, whose body is the
      same): peel off base-1000 digits until nothing is left. */
  method SplitByThousands(n: nat) returns (res: seq<nat>)
    ensures res == Groups(n)
  {
    res := [];
    var m := n;
    while m != 0
      invariant res + Groups(m) == Groups(n)
    {
      res := res + [m % 1000];
      m := m / 1000;
    }
  }

  /** The groups are digits below 1000, their weighted sum is n, there are
      none for 0, and the most significant one is not zero. */
  lemma {:induction false} GroupsSpec(n: nat)
    ensures forall i :: 0 <= i < |Groups(n)| ==> Groups(n)[i] < 1000
    ensures GroupsValue(Groups(n)) == n
    ensures Groups(n) == [] <==> n == 0
    ensures n > 0 ==> Groups(n)[|Groups(n)| - 1] != 0
    decreases n
  {
    if n > 0 {
      GroupsSpec(n / 1000);
      var gs := Groups(n);
      assert gs[1..] == Groups(n / 1000);
      if n < 1000 {
        assert gs == [n];
      }
    }
  }

  /** n has at most k groups exactly when n < 1000^k. */
  lemma {:induction false} GroupsCount(n: nat, k: nat)
    ensures |Groups(n)| <= k <==> n < Pow(1000, k)
    decreases n
  {
    if n > 0 && k > 0 {
      GroupsCount(n / 1000, k - 1);
    }
  }

  // -----------------------------------------------------------------------
  // Short scale

  /** The text of group z at index i: empty for a zero group, otherwise its
      words followed, above index 0, by the scale name of the index. */
  function ShortGroupText(z: nat, i: nat): string
    requires z <= 999
    requires z != 0 && i > 0 ==> i < |ShortScale|
  {
    if z == 0 then ""
    else SubThousand(z) + (if i > 0 then " " + ScaleNames(true)[i] else "")
  }

  predicate ShortGroupsFit(gs: seq<nat>) {
    |gs| <= |ShortScale| && forall i :: 0 <= i < |gs| ==> gs[i] <= 999
  }

  /** The per-group texts of gs, least significant first; a part is
      empty exactly when its group is zero. */
  function ShortParts(gs: seq<nat>): (ps: seq<string>)
    requires ShortGroupsFit(gs)
    ensures |ps| == |gs|
    ensures forall i :: 0 <= i < |gs| ==> (ps[i] == "" <==> gs[i] == 0)
  {
    seq(|gs|, i requires 0 <= i < |gs| => ShortGroupText(gs[i], i))
  }

  /** `_short_scale`: the group texts, most significant first, joined with
      ", ". The text starts with the part of the most significant group
      and ends with the part of the least significant one. */
  function ShortScaleJoin(gs: seq<nat>): (r: string)
    requires ShortGroupsFit(gs)
    ensures gs == [] ==> r == ""
    ensures |gs| > 0 ==> ShortParts(gs)[|gs| - 1] <= r
    ensures |gs| > 0 ==> var low := ShortParts(gs)[0];
      |low| <= |r| && r[|r| - |low|..] == low
  {
    var ps := Reverse(ShortParts(gs));
    if gs == [] then "" else JoinBounds(", ", ps); Join(", ", ps)
  }

  /** The short-scale text of n: nothing for zero, and the
      `_sub_thousand` words alone below one thousand. */
  function ShortScaleText(n: nat): (r: string)
    requires |Groups(n)| <= |ShortScale|
    ensures n == 0 ==> r == ""
    ensures 1 <= n <= 999 ==> r == SubThousand(n)
  {
    if 1 <= n <= 999 then
      GroupSingle(n);
      ShortGroupAlone(n);
      ShortScaleJoin(Groups(n))
    else
      ShortScaleJoin(Groups(n))
  }

  // -----------------------------------------------------------------------
  // Long scale

  /** The long scale names nothing at or above 10^154. */
  const InfinityBound: real := 10000000000000000000000000000000000000000000000000000000000000000000000000000000000000000000000000000000000000000000000000000000000000000000000000000000000.0

  /** Whether the suffix of a non-zero group at index i exists: odd indices
      above 1 take "thousand"; 1 and 2 take their own scale entry; other
      even indices take the entry before their own. */
  predicate LongSuffixDefined(i: nat) {
    (i % 2 != 0 && i > 1) || i < 3 || i - 1 < |LongScale|
  }

  function LongSuffix(i: nat): string
    requires LongSuffixDefined(i)
  {
    if i % 2 != 0 && i > 1 then " thousand"
    else if 0 < i < 3 then " " + ScaleNames(false)[i] + ","
    else if i > 0 then " " + ScaleNames(false)[i - 1] + ","
    else ""
  }

  /** Every group is a base-1000 digit and every non-zero group has a
      suffix. */
  predicate LongFit(gs: seq<nat>) {
    forall i :: 0 <= i < |gs| ==> gs[i] <= 999 && (gs[i] != 0 ==> LongSuffixDefined(i))
  }

  /** The texts of the non-zero groups among the first n of gs, least
      significant first. */
  function LongParts(gs: seq<nat>, n: nat): seq<string>
    requires LongFit(gs) && n <= |gs|
  {
    if n == 0 then []
    else
      LongParts(gs, n - 1)
      + if gs[n - 1] == 0 then [] else [SubThousand(gs[n - 1]) + LongSuffix(n - 1)]
  }

  /** `_long_scale`: "infinity" from 10^154 on; otherwise the texts of the
      non-zero groups, most significant first, joined with " ". */
  function LongScaleText(a: real): string
    requires a >= 0.0
    requires a < InfinityBound ==> LongFit(Groups(a.Floor))
  {
    if a >= InfinityBound then "infinity"
    else Join(" ", Reverse(LongParts(Groups(a.Floor), |Groups(a.Floor)|)))
  }

  // -----------------------------------------------------------------------
  // Decimal digits

  /** `int(a * place) % 10` for a >= 0: with place = 10^k, the k-th
      decimal digit of a. */
  function DigitAt(a: real, place: nat): nat
    requires a >= 0.0
  {
    (a * (place as real)).Floor % 10
  }

  /** The digits spoken after "point", the first of them at `place`: at
      most `places` of them, up to the first zero digit. */
  function SpokenDigits(a: real, places: int, place: nat): (ds: seq<nat>)
    requires a >= 0.0
    ensures forall i :: 0 <= i < |ds| ==> 0 < ds[i] < 10
    decreases if places > 0 then places else 0
  {
    if places > 0 && DigitAt(a, place) > 0 then
      [DigitAt(a, place)] + SpokenDigits(a, places - 1, place * 10)
    else []
  }

  function DigitWords(ds: seq<nat>): string
    requires forall i :: 0 <= i < |ds| ==> 0 < ds[i] < 10
  {
    if ds == [] then "" else " " + NumStrings[ds[0]] + DigitWords(ds[1..])
  }

  /** The fractional part of the spoken form. */
  function FractionText(a: real, places: int): string
    requires a >= 0.0
  {
    if a != a.Floor as real && places > 0 then " point" + DigitWords(SpokenDigits(a, places, 10))
    else ""
  }

  /** The spoken digits are the longest run of non-zero decimal digits from
      the k-th on, cut at `places`: at most `places` of them, ... */
  lemma {:induction false} SpokenDigitsBound(a: real, places: int, k: nat)
    requires a >= 0.0
    ensures |SpokenDigits(a, places, Pow(10, k))| <= (if places > 0 then places else 0)
    decreases if places > 0 then places else 0
  {
    var p := Pow(10, k);
    if places > 0 && DigitAt(a, p) > 0 {
      assert p * 10 == Pow(10, k + 1);
      SpokenDigitsBound(a, places - 1, k + 1);
    } else {
      assert SpokenDigits(a, places, p) == [];
    }
  }

  /** ... each of them the decimal digit at its own position, ... */
  lemma {:induction false} SpokenDigitAt(a: real, places: int, k: nat, i: nat)
    requires a >= 0.0 && i < |SpokenDigits(a, places, Pow(10, k))|
    ensures SpokenDigits(a, places, Pow(10, k))[i] == DigitAt(a, Pow(10, k + i))
    ensures DigitAt(a, Pow(10, k + i)) > 0
    decreases i
  {
    var p := Pow(10, k);
    var q := Pow(10, k + 1);
    assert p * 10 == q;
    var rest := SpokenDigits(a, places - 1, q);
    var ds := SpokenDigits(a, places, p);
    assert ds == [DigitAt(a, p)] + rest;
    if i == 0 {
      assert k + i == k;
    } else {
      SpokenDigitAt(a, places - 1, k + 1, i - 1);
      assert ds[i] == rest[i - 1];
      assert k + 1 + (i - 1) == k + i;
    }
  }

  /** ... and, when fewer than `places` are spoken, the digit after the
      last of them is zero. */
  lemma {:induction false} SpokenDigitsEndAtZero(a: real, places: int, k: nat)
    requires a >= 0.0
    ensures |SpokenDigits(a, places, Pow(10, k))| < places ==>
      DigitAt(a, Pow(10, k + |SpokenDigits(a, places, Pow(10, k))|)) == 0
    decreases if places > 0 then places else 0
  {
    var p := Pow(10, k);
    if places > 0 && DigitAt(a, p) > 0 {
      var q := Pow(10, k + 1);
      assert p * 10 == q;
      var rest := SpokenDigits(a, places - 1, q);
      assert SpokenDigits(a, places, p) == [DigitAt(a, p)] + rest;
      SpokenDigitsEndAtZero(a, places - 1, k + 1);
      assert k + 1 + |rest| == k + |SpokenDigits(a, places, p)|;
    } else {
      assert SpokenDigits(a, places, p) == [];
    }
  }

  /** A zero first decimal digit stops the loop at once: " point" is
      spoken with no digit after it. */
  lemma PointWithoutDigits(a: real, places: int)
    requires a >= 0.0 && a != a.Floor as real && places > 0 && DigitAt(a, 10) == 0
    ensures FractionText(a, places) == " point"
  {
    assert SpokenDigits(a, places, 10) == [];
    assert " point" + "" == " point";
  }

  /** The decimal-digit loop of `pronounce_number`. */
  method FractionPart(a: real, places: int) returns (text: string)
    requires a >= 0.0
    ensures text == FractionText(a, places)
  {
    text := "";
    if a != a.Floor as real && places > 0 {
      text := " point";
      ghost var goal := text + DigitWords(SpokenDigits(a, places, 10));
      var place: nat := 10;
      var left := places;
      while DigitAt(a, place) > 0 && left > 0
        invariant text + DigitWords(SpokenDigits(a, left, place)) == goal
        decreases left
      {
        var d := DigitAt(a, place);
        SpokenDigitsStep(a, left, place);
        ConcatAssoc(text, " " + NumStrings[d], DigitWords(SpokenDigits(a, left - 1, place * 10)));
        text := text + (" " + NumStrings[d]);
        place := place * 10;
        left := left - 1;
      }
      SpokenDigitsStop(a, left, place);
      assert text + "" == text;
    }
  }

  lemma SpokenDigitsStep(a: real, left: int, place: nat)
    requires a >= 0.0 && left > 0 && DigitAt(a, place) > 0
    ensures DigitWords(SpokenDigits(a, left, place))
      == " " + NumStrings[DigitAt(a, place)] + DigitWords(SpokenDigits(a, left - 1, place * 10))
  {
    var rest := SpokenDigits(a, left - 1, place * 10);
    assert SpokenDigits(a, left, place) == [DigitAt(a, place)] + rest;
    assert ([DigitAt(a, place)] + rest)[1..] == rest;
  }

  lemma SpokenDigitsStop(a: real, left: int, place: nat)
    requires a >= 0.0 && !(DigitAt(a, place) > 0 && left > 0)
    ensures DigitWords(SpokenDigits(a, left, place)) == ""
  {
  }

  // -----------------------------------------------------------------------
  // The whole number

  /** The non-negative value is a key of the merged name table. */
  predicate DirectMatch(a: real, short: bool)
    requires a >= 0.0
  {
    a == a.Floor as real && NumberName(short, a.Floor).Some?
  }

  /** The inputs on which `pronounce_number` does not index past the end
      of the scale table. */
  predicate Pronounceable(x: real, short: bool) {
    Speakable(Abs(x), short)
  }

  /** The magnitudes a >= 0 that `pronounce_number` can speak. */
  predicate Speakable(a: real, short: bool)
    requires a >= 0.0
  {
    || DirectMatch(a, short)
    || (short && |Groups(a.Floor)| <= |ShortScale|)
    || (!short && (a >= InfinityBound || LongFit(Groups(a.Floor))))
  }

  /** The words of the integral part of a >= 0: a single table word,
      preceded by "one" above 90, when a is a key of the name table;
      otherwise its short- or long-scale decomposition. */
  function IntegralText(a: real, short: bool): string
    requires a >= 0.0 && Speakable(a, short)
  {
    var n: nat := a.Floor;
    if DirectMatch(a, short) then (if n > 90 then "one " else "") + NumberName(short, n).value
    else if short then ShortScaleText(n)
    else LongScaleText(a)
  }

  /** The words of a >= 0: its integral part, then its fractional part. */
  function MagnitudeText(a: real, places: int, short: bool): string
    requires a >= 0.0 && Speakable(a, short)
  {
    IntegralText(a, short) + FractionText(a, places)
  }

  /** `pronounce_number(x, places, short)` outside scientific notation. */
  function Pronounced(x: real, places: int, short: bool): string
    requires Pronounceable(x, short)
  {
    (if x < 0.0 then "negative " else "") + MagnitudeText(Abs(x), places, short)
  }

  /** `_long_scale`, with each non-zero group spoken by `pronounce_number`
      in the short scale. */
  method SpeakLongScale(a: real, places: int) returns (text: string)
    requires a >= 0.0
    requires a < InfinityBound ==> LongFit(Groups(a.Floor))
    ensures text == LongScaleText(a)
    decreases 1, 0
  {
    if a >= InfinityBound {
      return "infinity";
    }
    var gs := SplitByThousands(a.Floor);
    var res: seq<string> := [];
    var i := 0;
    while i < |gs|
      invariant 0 <= i <= |gs|
      invariant res == LongParts(gs, i)
      decreases |gs| - i
    {
      var z := gs[i];
      if z != 0 {
        PronouncedGroup(z, places);
        var number := PronounceNumber(z as real, places, true);
        number := number + LongSuffix(i);
        res := res + [number];
      } else {
        assert LongParts(gs, i + 1) == LongParts(gs, i) + [];
      }
      i := i + 1;
    }
    text := Join(" ", Reverse(res));
  }

  /** `pronounce_number(x, places, short)` outside scientific notation. */
  method PronounceNumber(x: real, places: int, short: bool) returns (result: string)
    requires Pronounceable(x, short)
    ensures result == Pronounced(x, places, short)
    decreases if short then 0 else 1, 1
  {
    result := "";
    if x < 0.0 {
      result := "negative ";
    }
    var a := Abs(x);
    assert Pronounceable(a, short);
    var n: nat := a.Floor;
    var name := NumberName(short, n);
    var body := "";
    if a == n as real && name.Some? {
      if a > 90.0 {
        body := "one ";
      }
      body := body + name.value;
    } else if short {
      var gs := SplitByThousands(n);
      body := ShortScaleJoin(gs);
    } else {
      body := SpeakLongScale(a, places);
    }
    assert body == IntegralText(a, short);
    var f := FractionPart(a, places);
    result := result + (body + f);
  }

  // -----------------------------------------------------------------------
  // Properties

  /** A group value 1..999 spoken on its own in the short scale is its
      `_sub_thousand` text. */
  lemma PronouncedGroup(z: nat, places: int)
    requires 1 <= z <= 999
    ensures Pronounceable(z as real, true)
    ensures Pronounced(z as real, places, true) == SubThousand(z)
  {
    var a := z as real;
    assert a.Floor == z;
    assert Abs(a) == a;
    GroupSingle(z);
    assert Pronounceable(a, true);
    IntegralGroup(z);
    assert FractionText(a, places) == "";
    assert Pronounced(a, places, true) == "" + SubThousand(z) + "";
  }

  lemma IntegralGroup(z: nat)
    requires 1 <= z <= 999 && Groups(z) == [z]
    ensures Pronounceable(z as real, true)
    ensures IntegralText(z as real, true) == SubThousand(z)
  {
    assert (z as real).Floor == z;
    if DirectMatch(z as real, true) {
      DirectGroupText(z);
    } else {
      ShortGroupAlone(z);
    }
  }

  lemma GroupSingle(z: nat)
    requires 1 <= z <= 999
    ensures Groups(z) == [z]
  {
    assert Groups(z) == [z] + Groups(0);
  }

  /** Of the numbers below 1000 only 100 is a scale key. */
  lemma SmallNotScaleKey(short: bool, n: nat)
    requires n < 1000 && n != 100
    ensures ScaleLookup(Scale(short), n) == None
  {
    forall k | 0 <= k < |Scale(short)|
      ensures Scale(short)[k].0 != n
    {
      if k == 0 {
        ScaleTablesShaped(short);
      } else {
        ScaleKeyAtLeastThousand(short, k);
      }
    }
  }

  /** A group with a single table name is spoken as `_sub_thousand` speaks it. */
  lemma DirectGroupText(z: nat)
    requires 1 <= z <= 999 && NumberName(true, z).Some?
    ensures (if z > 90 then "one " else "") + NumberName(true, z).value == SubThousand(z)
  {
    if z == 100 {
      HundredName(z);
    } else {
      SmallNumberName(z);
      NameKeyBound(z);
      var w := NumStrings[z];
      SmallName(z);
      assert "" + w == w;
    }
  }

  /** Below 1000, apart from 100, the merged short-scale table names
      exactly the keys of the number-name table. */
  lemma SmallNumberName(n: nat)
    requires n < 1000 && n != 100
    ensures NumberName(true, n) == if n in NumStrings then Some(NumStrings[n]) else None
  {
    SmallNotScaleKey(true, n);
  }

  /** Every key of the number-name table is at most 90. */
  lemma NameKeyBound(n: nat)
    requires n in NumStrings
    ensures n <= 90
  {
    NumStringsDomain(n);
  }

  lemma HundredName(n: nat)
    requires n == 100
    ensures NumberName(true, n) == Some("hundred")
    ensures SubThousand(n) == "one hundred"
    ensures (if n > 90 then "one " else "") + NumberName(true, n).value == "one hundred"
  {
    assert ShortScale[0] == (100, "hundred");
    assert ScaleLookup(ShortScale, n) == Some("hundred");
    assert n / 100 == 1 && n % 100 == 0;
    assert SubThousand(n) == DigitName(1) + " hundred" + "";
    assert "one" + " hundred" + "" == "one hundred";
    assert "one " + "hundred" == "one hundred";
  }

  lemma SmallName(z: nat)
    requires 1 <= z < 100 && z in NumStrings
    ensures SubThousand(z) == NumStrings[z]
  {
    if z >= 20 {
      NumStringsDomain(z);
      var q := z / 10;
      assert z % 10 == 0 && 10 * q == z;
      TensName(q);
      assert SubThousand(z) == Tens[q - 1] + "";
    }
  }

  lemma TensName(q: nat)
    requires 1 <= q <= 9
    ensures Tens[q - 1] == NumStrings[10 * q]
  {
  }

  /** A single non-zero group alone in the short scale is its own text. */
  lemma ShortGroupAlone(z: nat)
    requires 1 <= z <= 999
    ensures ShortScaleJoin([z]) == SubThousand(z)
  {
    var ps := ShortParts([z]);
    assert ps[0] == ShortGroupText(z, 0) == SubThousand(z) + "";
    assert SubThousand(z) + "" == SubThousand(z);
    assert ps == [SubThousand(z)];
    assert Reverse(ps) == [SubThousand(z)];
  }

  /** A negative number is "negative " followed by its magnitude's words. */
  lemma PronouncedNegative(x: real, places: int, short: bool)
    requires x < 0.0 && Pronounceable(x, short)
    ensures Pronounceable(-x, short)
    ensures Pronounced(x, places, short) == "negative " + Pronounced(-x, places, short)
  {
    NegationPronounceable(x, short);
    var a := -x;
    assert Abs(x) == a && Abs(a) == a;
    var m := MagnitudeText(a, places, short);
    assert Pronounced(a, places, short) == "" + m == m;
    assert Pronounced(x, places, short) == "negative " + m;
  }

  lemma NegationPronounceable(x: real, short: bool)
    requires Pronounceable(x, short)
    ensures Pronounceable(-x, short)
  {
    assert Abs(-x) == Abs(x);
  }

  /** A key of the merged name table is spoken as that single name, after
      "one" above 90, without decomposition. */
  lemma PronouncedDirect(n: nat, places: int, short: bool)
    requires NumberName(short, n).Some?
    ensures Pronounceable(n as real, short)
    ensures Pronounced(n as real, places, short) == (if n > 90 then "one " else "") + NumberName(short, n).value
  {
    var a := n as real;
    assert a.Floor == n && Abs(a) == a;
    assert DirectMatch(a, short);
    var w := (if n > 90 then "one " else "") + NumberName(short, n).value;
    assert IntegralText(a, short) == w;
    assert FractionText(a, places) == "";
    assert MagnitudeText(a, places, short) == w + "" == w;
    assert Pronounced(a, places, short) == "" + w == w;
  }

  /** 100 is a table key, spoken "one hundred". */
  lemma PronouncedHundred(x: real, places: int)
    requires x == 100.0
    ensures Pronounceable(x, true) && Pronounced(x, places, true) == "one hundred"
  {
    var z: nat := x.Floor;
    assert z == 100 && x == z as real;
    PronouncedGroup(z, places);
    HundredName(z);
  }

  /** 1000 is a table key, spoken "one thousand". */
  lemma PronouncedThousand(x: real, places: int)
    requires x == 1000.0
    ensures Pronounceable(x, true) && Pronounced(x, places, true) == "one thousand"
  {
    var n: nat := x.Floor;
    assert n == 1000 && x == n as real;
    ThousandName(n);
    PronouncedDirect(n, places, true);
  }

  lemma ThousandName(n: nat)
    requires n == 1000
    ensures NumberName(true, n) == Some("thousand")
    ensures (if n > 90 then "one " else "") + NumberName(true, n).value == "one thousand"
  {
    assert "one " + "thousand" == "one thousand";
    assert ShortScale[0].0 != 1000;
    assert ShortScale[1] == (1000, "thousand");
    assert ScaleLookup(ShortScale[1..], 1000) == Some("thousand");
  }

  /** A number from 1000 to 999999 that is not a table key is its thousands
      group, " thousand", ", " and its low group, where a zero low group
      leaves the separator at the end. */
  lemma ShortTwoGroups(n: nat)
    requires 1000 <= n < 1000000
    ensures |Groups(n)| <= |ShortScale|
    ensures ShortScaleText(n) ==
      SubThousand(n / 1000) + " thousand, " + (if n % 1000 == 0 then "" else SubThousand(n % 1000))
  {
    var q, z := n / 1000, n % 1000;
    TwoGroups(n);
    var low := if z == 0 then "" else SubThousand(z);
    var high := SubThousand(q) + " thousand";
    TwoShortParts(z, q);
    assert Reverse([low, high]) == [high, low];
    JoinCons(", ", high, [low]);
    JoinSingle(", ", low);
    ThousandComma(SubThousand(q), low);
  }

  lemma ThousandComma(high: string, low: string)
    ensures high + " thousand" + ", " + low == high + " thousand, " + low
  {
    assert " thousand" + ", " == " thousand, ";
    ConcatAssoc(high, " thousand", ", ");
  }

  lemma TwoGroups(n: nat)
    requires 1000 <= n < 1000000
    ensures Groups(n) == [n % 1000, n / 1000]
  {
    var q := n / 1000;
    assert 1 <= q <= 999;
    GroupSingle(q);
    assert Groups(n) == [n % 1000] + Groups(q);
  }

  lemma TwoShortParts(z: nat, q: nat)
    requires z <= 999 && 1 <= q <= 999
    ensures ShortGroupsFit([z, q])
    ensures ShortParts([z, q]) == [if z == 0 then "" else SubThousand(z), SubThousand(q) + " thousand"]
  {
    ScaleTablesShaped(true);
    assert ScaleNames(true)[1] == "thousand";
    var ps := ShortParts([z, q]);
    assert ps[0] == ShortGroupText(z, 0);
    assert " " + "thousand" == " thousand";
    assert ps[1] == ShortGroupText(q, 1) == SubThousand(q) + " thousand";
    if z != 0 {
      assert ShortGroupText(z, 0) == SubThousand(z) + "";
      assert SubThousand(z) + "" == SubThousand(z);
    }
  }

  /** 2000 is spoken "two thousand, ": the zero low group keeps its
      separator. */
  lemma PronouncedTwoThousand(a: real, places: int)
    requires a == 2000.0
    ensures Pronounceable(a, true) && Pronounced(a, places, true) == "two thousand, "
  {
    var n: nat := a.Floor;
    assert n == 2000 && a == n as real;
    TwoThousandNotKey(n);
    ShortTwoGroups(n);
    PronouncedShortScale(n, places);
    TwoThousandWords(n);
  }

  /** A whole number that is not a table key and fits the short scale is
      spoken as its short-scale decomposition. */
  lemma PronouncedShortScale(n: nat, places: int)
    requires NumberName(true, n).None? && |Groups(n)| <= |ShortScale|
    ensures Pronounceable(n as real, true)
    ensures Pronounced(n as real, places, true) == ShortScaleText(n)
  {
    var a := n as real;
    assert a.Floor == n && Abs(a) == a;
    assert !DirectMatch(a, true);
    var w := ShortScaleText(n);
    assert IntegralText(a, true) == w;
    assert FractionText(a, places) == "";
    assert MagnitudeText(a, places, true) == w + "" == w;
    assert Pronounced(a, places, true) == "" + w == w;
  }

  /** A whole number below 10^154 that is not a table key and whose
      groups all have suffixes is spoken as its long-scale decomposition. */
  lemma PronouncedLongScale(n: nat, places: int)
    requires NumberName(false, n).None? && (n as real) < InfinityBound && LongFit(Groups(n))
    ensures Pronounceable(n as real, false)
    ensures Pronounced(n as real, places, false)
      == Join(" ", Reverse(LongParts(Groups(n), |Groups(n)|)))
  {
    var a := n as real;
    assert a.Floor == n && Abs(a) == a;
    assert !DirectMatch(a, false);
    var w := LongScaleText(a);
    assert w == Join(" ", Reverse(LongParts(Groups(n), |Groups(n)|)));
    assert IntegralText(a, false) == w;
    assert FractionText(a, places) == "";
    assert MagnitudeText(a, places, false) == w + "" == w;
    assert Pronounced(a, places, false) == "" + w == w;
  }

  lemma TwoThousandWords(n: nat)
    requires n == 2000
    ensures n % 1000 == 0 && n / 1000 == 2
    ensures SubThousand(n / 1000) + " thousand, " + "" == "two thousand, "
  {
    var q := n / 1000;
    assert q == 2;
    assert SubThousand(q) == NumStrings[2];
    assert "two" + " thousand, " + "" == "two thousand, ";
  }

  lemma TwoThousandNotKey(n: nat)
    requires n == 2000
    ensures NumberName(true, n) == None
  {
    NumStringsDomain(n);
    forall k | 0 <= k < |ShortScale|
      ensures ShortScale[k].0 != n
    {
      if k == 0 {
        assert ShortScale[0].0 == 100;
      } else if k == 1 {
        assert ShortScale[1].0 == 1000;
      } else {
        ScaleKeyAbove(k);
      }
    }
    assert ScaleLookup(ShortScale, n) == None;
  }

  lemma ScaleKeyAbove(k: nat)
    requires 2 <= k < |ShortScale|
    ensures ShortScale[k].0 >= 1000000
  {
    ScaleTablesShaped(true);
    assert ShortScale[k].0 == ScaleValue(true, k) == Pow(1000, k);
    PowThousandAbove(k);
  }

  /** 1000^k for k >= 2 is at least a million. */
  lemma {:induction false} PowThousandAbove(k: nat)
    requires k >= 2
    ensures Pow(1000, k) >= 1000000
  {
    if k > 2 {
      PowThousandAbove(k - 1);
    }
  }

  /** In the long scale, from 10^154 on the integral part is "infinity". */
  lemma LongInfinity(x: real, places: int)
    requires x >= InfinityBound
    ensures Pronounceable(x, false)
    ensures Pronounced(x, places, false) == "infinity" + FractionText(x, places)
  {
    var a := Abs(x);
    var n: nat := a.Floor;
    assert a == x && (n as real) >= InfinityBound;
    InfinityNotKey(n);
    assert !DirectMatch(a, false);
    var w := "infinity" + FractionText(a, places);
    assert IntegralText(a, false) == "infinity";
    assert Pronounced(x, places, false) == "" + w;
  }

  lemma InfinityNotKey(n: nat)
    requires (n as real) >= InfinityBound
    ensures NumberName(false, n) == None
  {
    forall k | 0 <= k < |LongScale|
      ensures LongScale[k].0 != n
    {
      LongKeyBelow(k);
    }
    NumStringsDomain(n);
  }

  /** In the long scale 10^9 is spoken "one thousand": the group at index 3
      takes " thousand" without the million it stands for. */
  lemma LongThousandMillion(a: real, places: int)
    requires a == 1000000000.0
    ensures Pronounceable(a, false)
    ensures Pronounced(a, places, false) == "one thousand"
  {
    var n: nat := a.Floor;
    assert n == 1000000000 && a == n as real;
    BillionNotLongKey(n);
    BillionGroups(n);
    BillionLongParts(Groups(n));
    PronouncedLongScale(n, places);
    assert Reverse(["one thousand"]) == ["one thousand"];
  }

  lemma BillionNotLongKey(n: nat)
    requires n == 1000000000
    ensures NumberName(false, n) == None
  {
    BillionNotScaleKey();
    NumStringsDomain(n);
  }

  lemma BillionNotScaleKey()
    ensures ScaleLookup(LongScale, 1000000000) == None
  {
    forall k | 0 <= k < |LongScale|
      ensures LongScale[k].0 != 1000000000
    {
      if k < 3 {
        assert LongScale[k].0 <= 1000000 by {
          if k == 0 {} else if k == 1 {} else {}
        }
      } else {
        LongKeyLarge(k);
      }
    }
  }

  lemma LongKeyBelow(k: nat)
    requires k < |LongScale|
    ensures (LongScale[k].0 as real) < InfinityBound
  {
    ScaleTablesShaped(false);
    if k == 0 {} else if k == 1 {} else if k == 2 {} else if k == 3 {} else if k == 4 {}
    else if k == 5 {} else if k == 6 {} else if k == 7 {} else if k == 8 {} else if k == 9 {}
    else if k == 10 {} else {}
  }

  lemma LongKeyLarge(k: nat)
    requires 3 <= k < |LongScale|
    ensures LongScale[k].0 >= 1000000000000
  {
    if k == 3 {} else if k == 4 {} else if k == 5 {} else if k == 6 {} else if k == 7 {}
    else if k == 8 {} else if k == 9 {} else if k == 10 {} else {}
  }

  lemma BillionGroups(n: nat)
    requires n == 1000000000
    ensures Groups(n) == [0, 0, 0, 1]
  {
    assert Groups(1) == [1] + Groups(0);
    assert Groups(1000) == [0] + Groups(1);
    assert Groups(1000000) == [0] + Groups(1000);
  }

  lemma BillionLongParts(gs: seq<nat>)
    requires gs == [0, 0, 0, 1]
    ensures LongFit(gs) && LongParts(gs, 4) == ["one thousand"]
  {
    assert LongSuffixDefined(3);
    assert LongParts(gs, 3) == [] by {
      assert LongParts(gs, 1) == [] + [];
      assert LongParts(gs, 2) == [] + [];
    }
    OneThousandGroup();
  }

  lemma OneThousandGroup()
    ensures SubThousand(1) + LongSuffix(3) == "one thousand"
  {
    assert SubThousand(1) == "one";
    assert LongSuffix(3) == " thousand";
  }

}
